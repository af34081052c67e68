/** Every interleaving of link events, encryption, discovery, disconnects, removals, ticks, status responses,
    CAN callbacks and web commands: what the slot table, NVS and the driver contexts keep. */
module Lifecycle {
  import opened Base
  import opened QueryResponses
  import opened Cameras
  import opened StartGuard

  /** The manager and the live links: handle to peer address. */
  datatype World = World(mgr: Manager, links: map<nat, Addr>)

  datatype Logging = LoggingUnknown | NotLogging | LoggingOn

  datatype Event =
    | Link(h: nat, a: Addr)
    | Encrypted(h: nat)
    | Unlink(h: nat)
    | Discovered(h: nat, handles: Handles, ready: bool)
    | StatusResponse(h: nat, flags: seq<bool>)
    | Remove(i: nat)
    | TickTimer(accept: nat -> bool)
    | LoggingChanged(state: Logging, accept: nat -> bool)
    | ShutterAllCmd(on: bool, accept: nat -> bool)
    | ShutterSlotCmd(i: nat, on: bool, ok: bool)
    | AutoControl(enabled: bool)

  /** A new link has a fresh handle and a peer that is not linked yet; the other link events need a live link. */
  predicate Enabled(w: World, e: Event) {
    match e
    case Link(h, a) => h !in w.links && h != HANDLE_NONE && a !in w.links.Values
    case Encrypted(h) => h in w.links
    case Unlink(h) => h in w.links
    case Discovered(h, _, _) => h in w.links
    case StatusResponse(h, _) => h in w.links
    case Remove(i) => i < MAX_BONDS
    case ShutterSlotCmd(i, _, _) => i < MAX_BONDS
    case _ => true
  }

  /** A status response that passed the gate of gopro_on_notify_rx_cb reaches the slot's context. */
  function OnStatus(m: Manager, h: nat, flags: seq<bool>): (r: Manager)
    requires Sized(m)
    ensures Sized(r)
  {
    var i := FindByHandle(m.cams, h);
    if i < 0 || !m.cams[i].slot.gattReady then m else SetCam(m, i, StatusOne(m.cams[i], flags))
  }

  /** on_logging_state_changed of main.c. */
  function OnLogging(m: Manager, state: Logging, accept: nat -> bool): (r: Manager)
    requires Sized(m)
    ensures Sized(r)
  {
    if !m.autoControl || state.LoggingUnknown? then m else ShutterAll(m, state.LoggingOn?, accept)
  }

  function StepMgr(w: World, e: Event): (r: Manager)
    requires Sized(w.mgr) && Enabled(w, e)
    ensures Sized(r)
  {
    match e
    case Link(h, a) => ConnectedCb(w.mgr, h, a)
    case Encrypted(h) => EncryptedCb(w.mgr, h, w.links[h])
    case Unlink(h) => DisconnectedCb(w.mgr, h)
    case Discovered(h, handles, ready) => DiscoveryDone(w.mgr, h, handles, ready)
    case StatusResponse(h, flags) => OnStatus(w.mgr, h, flags)
    case Remove(i) => RemoveSlot(w.mgr, i)
    case TickTimer(accept) => Tick(w.mgr, accept)
    case LoggingChanged(state, accept) => OnLogging(w.mgr, state, accept)
    case ShutterAllCmd(on, accept) => ShutterAll(w.mgr, on, accept)
    case ShutterSlotCmd(i, on, ok) => SetCam(w.mgr, i, ShutterOne(w.mgr.cams[i], on, ok))
    case AutoControl(enabled) => w.mgr.(autoControl := enabled)
  }

  function Step(w: World, e: Event): (r: World)
    requires Sized(w.mgr) && Enabled(w, e)
    ensures Sized(r.mgr)
  {
    World(StepMgr(w, e),
          if e.Link? then w.links[e.h := e.a] else if e.Unlink? then w.links - {e.h} else w.links)
  }

  // ---- The invariant -------------------------------------------------------------------------

  /** One link per peer, and no link on the reserved handle. */
  ghost predicate ValidLinks(links: map<nat, Addr>) {
    && HANDLE_NONE !in links
    && forall g, h | g in links && h in links && g != h :: links[g] != links[h]
  }

  /** A slot and the links agree: its handle is the live link to its address, both ways; only a connected slot
    is ready; it has a driver context exactly if it holds a GoPro, and that context carries its handle. */
  ghost predicate Consistent(s: Slot, links: map<nat, Addr>) {
    && (s.handle != HANDLE_NONE ==> s.configured && s.handle in links && links[s.handle] == s.mac)
    && (s.configured ==> forall h | h in links && links[h] == s.mac :: s.handle == h)
    && (s.gattReady ==> s.handle != HANDLE_NONE)
    && (s.ctx.Some? ==> s.ctx.value.connHandle == s.handle)
    && (s.ctx.Some? <==> s.configured && s.camType == CAMERA_TYPE_GOPRO_BLE)
  }

  ghost predicate DistinctAddrs(cams: seq<Camera>) {
    forall i, j | 0 <= i < j < |cams| && cams[i].slot.configured && cams[j].slot.configured ::
      cams[i].slot.mac != cams[j].slot.mac
  }

  /** NVS holds exactly what RAM would save. */
  predicate Mirrored(s: Slot, rec: Option<Record>) {
    rec == if s.configured then Some(RecordOf(s)) else None
  }

  ghost predicate Inv(w: World) {
    && Sized(w.mgr) && ValidLinks(w.links)
    && DistinctAddrs(w.mgr.cams)
    && (forall i | 0 <= i < MAX_BONDS :: Consistent(w.mgr.cams[i].slot, w.links))
    && (forall i | 0 <= i < MAX_BONDS :: Mirrored(w.mgr.cams[i].slot, w.mgr.nvs[i]))
    && (forall i | 0 <= i < MAX_BONDS :: Guarded(w.mgr.cams[i]))
  }

  /** Non-NONE handles are distinct, and find_by_handle finds the slot of the link's peer. */
  lemma HandlesDistinct(w: World)
    requires Inv(w)
    ensures forall i, j | 0 <= i < j < MAX_BONDS && w.mgr.cams[i].slot.handle != HANDLE_NONE ::
      w.mgr.cams[i].slot.handle != w.mgr.cams[j].slot.handle
    ensures forall h | h in w.links :: FindByHandle(w.mgr.cams, h) == FindByAddr(w.mgr.cams, w.links[h])
  {
    forall i, j | 0 <= i < j < MAX_BONDS && w.mgr.cams[i].slot.handle != HANDLE_NONE
      ensures w.mgr.cams[i].slot.handle != w.mgr.cams[j].slot.handle
    {
      assert Consistent(w.mgr.cams[i].slot, w.links) && Consistent(w.mgr.cams[j].slot, w.links);
    }
    forall h | h in w.links
      ensures FindByHandle(w.mgr.cams, h) == FindByAddr(w.mgr.cams, w.links[h])
    {
      forall i | 0 <= i < MAX_BONDS
        ensures w.mgr.cams[i].slot.handle == h <==> HasAddr(w.mgr.cams[i].slot, w.links[h])
      {
        assert Consistent(w.mgr.cams[i].slot, w.links);
      }
    }
  }

  lemma FindsItsHandle(w: World, i: nat)
    requires Inv(w) && i < MAX_BONDS && w.mgr.cams[i].slot.handle != HANDLE_NONE
    ensures FindByHandle(w.mgr.cams, w.mgr.cams[i].slot.handle) == i
  {
    HandlesDistinct(w);
    var k := FindByHandle(w.mgr.cams, w.mgr.cams[i].slot.handle);
    assert !(k < i) && !(i < k);
  }

  /** Replacing one camera keeps the invariant when the new slot is as good as the old one. */
  lemma ReplaceKeeps(w: World, i: nat, c: Camera, rec: Option<Record>, m: Manager)
    requires Inv(w) && i < MAX_BONDS
    requires Consistent(c.slot, w.links) && Mirrored(c.slot, rec) && Guarded(c)
    requires c.slot.configured ==> forall j | 0 <= j < MAX_BONDS && j != i :: !HasAddr(w.mgr.cams[j].slot, c.slot.mac)
    requires Sized(m) && m.cams == w.mgr.cams[i := c] && m.nvs == w.mgr.nvs[i := rec]
    ensures Inv(World(m, w.links))
  {
  }

  /** Changing every camera in ways its address, handle, readiness and guard survive keeps the invariant. */
  lemma PointwiseKeeps(w: World, m: Manager)
    requires Inv(w) && Sized(m) && m.nvs == w.mgr.nvs
    requires forall i | 0 <= i < MAX_BONDS :: SamePlace(w.mgr.cams[i].slot, m.cams[i].slot) && Guarded(m.cams[i])
    ensures Inv(World(m, w.links))
  {
    forall i | 0 <= i < MAX_BONDS
      ensures Consistent(m.cams[i].slot, w.links) && Mirrored(m.cams[i].slot, m.nvs[i])
    {
      assert SamePlace(w.mgr.cams[i].slot, m.cams[i].slot) && Consistent(w.mgr.cams[i].slot, w.links);
      assert Mirrored(w.mgr.cams[i].slot, w.mgr.nvs[i]);
    }
    forall i, j | 0 <= i < j < MAX_BONDS && m.cams[i].slot.configured && m.cams[j].slot.configured
      ensures m.cams[i].slot.mac != m.cams[j].slot.mac
    {
      assert SamePlace(w.mgr.cams[i].slot, m.cams[i].slot) && SamePlace(w.mgr.cams[j].slot, m.cams[j].slot);
    }
  }

  /** Only the desired flag and the driver context's recording fields may differ. */
  predicate SamePlace(s: Slot, t: Slot) {
    && t == s.(desired := t.desired, ctx := t.ctx)
    && (s.ctx.Some? <==> t.ctx.Some?)
    && (s.ctx.Some? ==> t.ctx.value.connHandle == s.ctx.value.connHandle)
  }

  lemma StartOneKeeps(c: Camera, accept: bool)
    requires Guarded(c)
    ensures Guarded(StartOne(c, accept)) && SamePlace(c.slot, StartOne(c, accept).slot)
    ensures Guarded(TickOne(c, accept)) && SamePlace(c.slot, TickOne(c, accept).slot)
  {
    if c.slot.ctx.Some? {
      StartKeeps(c, accept);
    }
  }

  lemma StopOneKeeps(c: Camera)
    requires Guarded(c)
    ensures Guarded(StopOne(c)) && SamePlace(c.slot, StopOne(c).slot)
  {
    if c.slot.ctx.Some? {
      StopKeeps(c);
    }
  }

  lemma ShutterOneKeeps(c: Camera, on: bool, accept: bool)
    requires Guarded(c)
    ensures Guarded(ShutterOne(c, on, accept)) && SamePlace(c.slot, ShutterOne(c, on, accept).slot)
  {
    var d := c.(slot := c.slot.(desired := on));
    assert Guarded(d);
    StartOneKeeps(d, accept);
    StopOneKeeps(d);
  }

  lemma ShutterAllEach(m: Manager, on: bool, accept: nat -> bool, i: nat)
    requires Sized(m) && i < MAX_BONDS && Guarded(m.cams[i])
    ensures var c := ShutterAll(m, on, accept).cams[i]; SamePlace(m.cams[i].slot, c.slot) && Guarded(c)
  {
    var d := m.cams[i].(slot := m.cams[i].slot.(desired := on));
    StartOneKeeps(d, accept(i));
    StopOneKeeps(d);
  }

  lemma ShutterAllKeeps(w: World, on: bool, accept: nat -> bool)
    requires Inv(w)
    ensures Inv(World(ShutterAll(w.mgr, on, accept), w.links))
  {
    var m := ShutterAll(w.mgr, on, accept);
    forall i | 0 <= i < MAX_BONDS ensures SamePlace(w.mgr.cams[i].slot, m.cams[i].slot) && Guarded(m.cams[i]) {
      assert Guarded(w.mgr.cams[i]);
      ShutterAllEach(w.mgr, on, accept, i);
    }
    PointwiseKeeps(w, m);
  }

  lemma TickKeeps(w: World, accept: nat -> bool)
    requires Inv(w)
    ensures Inv(World(Tick(w.mgr, accept), w.links))
  {
    var m := Tick(w.mgr, accept);
    forall i | 0 <= i < MAX_BONDS ensures SamePlace(w.mgr.cams[i].slot, m.cams[i].slot) && Guarded(m.cams[i]) {
      assert Guarded(w.mgr.cams[i]);
      StartOneKeeps(w.mgr.cams[i], accept(i));
    }
    PointwiseKeeps(w, m);
  }

  lemma OneCameraKeeps(w: World, i: nat, c: Camera)
    requires Inv(w) && i < MAX_BONDS
    requires SamePlace(w.mgr.cams[i].slot, c.slot) && Guarded(c)
    ensures Inv(World(SetCam(w.mgr, i, c), w.links))
  {
    var m := SetCam(w.mgr, i, c);
    forall j | 0 <= j < MAX_BONDS ensures SamePlace(w.mgr.cams[j].slot, m.cams[j].slot) && Guarded(m.cams[j]) {
      assert Guarded(w.mgr.cams[j]);
    }
    PointwiseKeeps(w, m);
  }

  lemma LinkKeeps(w: World, h: nat, a: Addr)
    requires Inv(w) && Enabled(w, Link(h, a))
    ensures Inv(Step(w, Link(h, a)))
  {
    var w' := Step(w, Link(h, a));
    var i := FindByAddr(w.mgr.cams, a);
    forall j | 0 <= j < MAX_BONDS
      ensures Consistent(w'.mgr.cams[j].slot, w'.links)
      ensures Mirrored(w'.mgr.cams[j].slot, w'.mgr.nvs[j]) && Guarded(w'.mgr.cams[j])
    {
      var s := w.mgr.cams[j].slot;
      assert Consistent(s, w.links) && Mirrored(s, w.mgr.nvs[j]) && Guarded(w.mgr.cams[j]);
      if j != i {
        assert i >= 0 ==> w.mgr.cams[i].slot.mac == a;
        assert !HasAddr(s, a);
      }
    }
  }

  /** A camera whose link is gone. */
  function Gone(c: Camera): Camera {
    DropCtx(c).(slot := DropCtx(c).slot.(handle := HANDLE_NONE, gattReady := false))
  }

  /** The slot found by the first search is the one on_disconnected finds again. */
  lemma UnlinkIs(m: Manager, h: nat)
    requires Sized(m) && FindByHandle(m.cams, h) >= 0
    ensures var i := FindByHandle(m.cams, h); var r := DisconnectedCb(m, h);
      r.cams == m.cams[i := Gone(m.cams[i])] && r.nvs == m.nvs
  {
    var i := FindByHandle(m.cams, h);
    var m1 := SetCam(m, i, DropCtx(m.cams[i]));
    var k := FindByHandle(m1.cams, h);
    assert m1.cams[i].slot.handle == h && forall j | 0 <= j < i :: m1.cams[j] == m.cams[j];
    assert !(k < i) && !(i < k);
  }

  lemma GoneKeeps(c: Camera, links: map<nat, Addr>, h: nat)
    requires ValidLinks(links) && h in links && c.slot.handle == h && Consistent(c.slot, links) && Guarded(c)
    ensures Consistent(Gone(c).slot, links - {h}) && Guarded(Gone(c))
    ensures Gone(c).slot.configured && c.slot.configured && RecordOf(Gone(c).slot) == RecordOf(c.slot)
  {
    DropKeeps(c);
  }

  lemma OthersStayConsistent(s: Slot, links: map<nat, Addr>, h: nat)
    requires Consistent(s, links) && s.handle != h
    ensures Consistent(s, links - {h})
  {
  }

  lemma UnlinkKeeps(w: World, h: nat)
    requires Inv(w) && Enabled(w, Unlink(h))
    ensures Inv(Step(w, Unlink(h)))
  {
    var w' := Step(w, Unlink(h));
    forall j | 0 <= j < MAX_BONDS
      ensures Consistent(w'.mgr.cams[j].slot, w'.links) && Guarded(w'.mgr.cams[j])
      ensures w'.mgr.cams[j].slot.configured == w.mgr.cams[j].slot.configured
      ensures RecordOf(w'.mgr.cams[j].slot) == RecordOf(w.mgr.cams[j].slot) && w'.mgr.nvs == w.mgr.nvs
    {
      UnlinkSlot(w, h, j);
    }
  }

  /** The slot that carried the link is disconnected, the others are as they were. */
  lemma UnlinkSlot(w: World, h: nat, j: nat)
    requires Inv(w) && h in w.links && j < MAX_BONDS
    ensures var c := w.mgr.cams[j]; var r := Step(w, Unlink(h)); var d := r.mgr.cams[j];
      && d == (if c.slot.handle == h then Gone(c) else c) && r.mgr.nvs == w.mgr.nvs
      && Consistent(d.slot, r.links) && Guarded(d)
      && d.slot.configured == c.slot.configured && RecordOf(d.slot) == RecordOf(c.slot)
  {
    var c := w.mgr.cams[j];
    assert Consistent(c.slot, w.links) && Guarded(c);
    if FindByHandle(w.mgr.cams, h) >= 0 {
      UnlinkIs(w.mgr, h);
    }
    if c.slot.handle == h {
      FindsItsHandle(w, j);
      GoneKeeps(c, w.links, h);
    } else {
      OthersStayConsistent(c.slot, w.links, h);
    }
  }

  /** Registration in a free slot gives a configured, saved, unconnected camera. */
  lemma RegisterIs(w: World, i: nat, a: Addr)
    requires Inv(w) && i < MAX_BONDS && !w.mgr.cams[i].slot.configured
    ensures var m := RegisterCamera(w.mgr, i, a); var s := m.cams[i].slot;
      && m.cams == w.mgr.cams[i := m.cams[i]] && m.nvs == w.mgr.nvs[i := Some(RecordOf(s))] && m.can == w.mgr.can
      && s.configured && s.mac == a && s.handle == HANDLE_NONE && !s.gattReady && s.ctx.Some?
      && Guarded(m.cams[i])
  {
    assert Guarded(w.mgr.cams[i]);
    NewContextKeeps(w.mgr.cams[i],
      RegisteredSlot(w.mgr.cams[i].slot, a, PlaceholderName(a), FRESH_CTX.(firstPairing := true)));
  }

  lemma EncryptedKeeps(w: World, h: nat)
    requires Inv(w) && Enabled(w, Encrypted(h))
    ensures Inv(Step(w, Encrypted(h)))
  {
    var a := w.links[h];
    var known, free := FindByAddr(w.mgr.cams, a), FindFree(w.mgr.cams);
    if known >= 0 {
      var c := w.mgr.cams[known];
      assert Consistent(c.slot, w.links) && Mirrored(c.slot, w.mgr.nvs[known]) && Guarded(c);
      assert WithCtxHandle(c, h) == c;
      assert c.slot.handle == h;
      assert Step(w, Encrypted(h)).mgr == w.mgr;
    } else if free >= 0 {
      RegisterIs(w, free, a);
      var m1 := RegisterCamera(w.mgr, free, a);
      var c := WithCtxHandle(m1.cams[free].(slot := m1.cams[free].slot.(handle := h)), h);
      var w' := Step(w, Encrypted(h));
      assert w'.mgr.cams == w.mgr.cams[free := c];
      assert w'.mgr.nvs == w.mgr.nvs[free := Some(RecordOf(c.slot))];
      ReplaceKeeps(w, free, c, Some(RecordOf(c.slot)), w'.mgr);
    }
  }

  lemma RemoveKeeps(w: World, i: nat)
    requires Inv(w) && i < MAX_BONDS
    ensures Inv(Step(w, Remove(i)))
  {
    var c := w.mgr.cams[i].(slot := BLANK);
    assert Guarded(w.mgr.cams[i]);
    ReplaceKeeps(w, i, c, None, RemoveSlot(w.mgr, i));
  }

  lemma DiscoveredKeeps(w: World, h: nat, handles: Handles, ready: bool)
    requires Inv(w) && Enabled(w, Discovered(h, handles, ready))
    ensures Inv(Step(w, Discovered(h, handles, ready)))
  {
    var w' := Step(w, Discovered(h, handles, ready));
    var i := FindByHandle(w.mgr.cams, h);
    if i >= 0 {
      var c := w.mgr.cams[i];
      assert Consistent(c.slot, w.links) && Mirrored(c.slot, w.mgr.nvs[i]) && Guarded(c);
      var c' := w'.mgr.cams[i];
      assert w'.mgr.cams == w.mgr.cams[i := c'] && w'.mgr.nvs == w.mgr.nvs[i := w.mgr.nvs[i]];
      forall j | 0 <= j < MAX_BONDS && j != i ensures !HasAddr(w.mgr.cams[j].slot, c.slot.mac) {
        assert w.mgr.cams[j].slot.configured ==> w.mgr.cams[j].slot.mac != c.slot.mac;
      }
      ReplaceKeeps(w, i, c', w.mgr.nvs[i], w'.mgr);
    }
  }

  lemma StatusResponseKeeps(w: World, h: nat, flags: seq<bool>)
    requires Inv(w) && Enabled(w, StatusResponse(h, flags))
    ensures Inv(Step(w, StatusResponse(h, flags)))
  {
    var i := FindByHandle(w.mgr.cams, h);
    if i >= 0 {
      assert Guarded(w.mgr.cams[i]);
      StatusKeeps(w.mgr.cams[i], flags);
      OneCameraKeeps(w, i, StatusOne(w.mgr.cams[i], flags));
    }
  }

  /** Main result: every event keeps the whole invariant. */
  lemma StepKeeps(w: World, e: Event)
    requires Inv(w) && Enabled(w, e)
    ensures Inv(Step(w, e))
  {
    match e
    case Link(h, a) => LinkKeeps(w, h, a);
    case Encrypted(h) => EncryptedKeeps(w, h);
    case Unlink(h) => UnlinkKeeps(w, h);
    case Discovered(h, handles, ready) => DiscoveredKeeps(w, h, handles, ready);
    case StatusResponse(h, flags) => StatusResponseKeeps(w, h, flags);
    case Remove(i) => RemoveKeeps(w, i);
    case TickTimer(accept) => TickKeeps(w, accept);
    case LoggingChanged(state, accept) =>
      if w.mgr.autoControl && !state.LoggingUnknown? {
        ShutterAllKeeps(w, state.LoggingOn?, accept);
      }
    case ShutterAllCmd(on, accept) => ShutterAllKeeps(w, on, accept);
    case ShutterSlotCmd(i, on, ok) =>
      assert Guarded(w.mgr.cams[i]);
      ShutterOneKeeps(w.mgr.cams[i], on, ok);
      OneCameraKeeps(w, i, ShutterOne(w.mgr.cams[i], on, ok));
    case AutoControl(enabled) =>
  }

  // ---- Runs and reboots ----------------------------------------------------------------------

  predicate ValidRun(w: World, run: seq<Event>)
    requires Sized(w.mgr)
    decreases |run|
  {
    run == [] || (Enabled(w, run[0]) && ValidRun(Step(w, run[0]), run[1..]))
  }

  function After(w: World, run: seq<Event>): (r: World)
    requires Sized(w.mgr) && ValidRun(w, run)
    ensures Sized(r.mgr)
    decreases |run|
  {
    if run == [] then w else After(Step(w, run[0]), run[1..])
  }

  /** NVS contents a previous run can have left: configured records with distinct addresses. */
  ghost predicate ValidNvs(nvs: seq<Option<Record>>) {
    && |nvs| == MAX_BONDS
    && (forall i | 0 <= i < |nvs| && nvs[i].Some? :: nvs[i].value.configured)
    && (forall i, j | 0 <= i < j < |nvs| && nvs[i].Some? && nvs[j].Some? :: nvs[i].value.mac != nvs[j].value.mac)
  }

  lemma BootInv(nvs: seq<Option<Record>>)
    requires ValidNvs(nvs)
    ensures Inv(World(Init(nvs), map[]))
  {
    forall i | 0 <= i < MAX_BONDS ensures Guarded(Init(nvs).cams[i]) {
      var t := [NewContext];
      assert t == [] + [NewContext];
      AppendMark([], NewContext);
    }
  }

  /** Over any run from any boot, the invariant holds. */
  lemma {:induction false} RunKeeps(w: World, run: seq<Event>)
    requires Inv(w) && ValidRun(w, run)
    ensures Inv(After(w, run))
    decreases |run|
  {
    if run == [] {
    } else {
      StepKeeps(w, run[0]);
      RunKeeps(Step(w, run[0]), run[1..]);
    }
  }

  /** In every run from boot, between two start writes for one camera slot's driver context there is a status
      change into or out of recording, a stop call, a disconnect, or the slot got a new context. */
  lemma StartsAreSeparated(nvs: seq<Option<Record>>, run: seq<Event>, i: nat, p: nat, q: nat)
    requires ValidNvs(nvs) && ValidRun(World(Init(nvs), map[]), run) && i < MAX_BONDS
    requires var t := After(World(Init(nvs), map[]), run).mgr.cams[i].trace;
      p < q < |t| && t[p].StartSent? && t[q].StartSent?
    ensures var t := After(World(Init(nvs), map[]), run).mgr.cams[i].trace;
      exists k :: p < k < q && Closes(t[k])
  {
    BootInv(nvs);
    RunKeeps(World(Init(nvs), map[]), run);
    assert Guarded(After(World(Init(nvs), map[]), run).mgr.cams[i]);
  }

  /** A reboot loses nothing: re-running init from NVS at any point gives the same slots, names, addresses and
      types, all disconnected and with recording not wanted. */
  lemma RebootMatches(w: World, i: nat)
    requires Inv(w) && i < MAX_BONDS
    ensures ValidNvs(w.mgr.nvs)
    ensures var s := w.mgr.cams[i].slot; var t := Init(w.mgr.nvs).cams[i].slot;
      && t.configured == s.configured
      && (s.configured ==> t.name == s.name && t.mac == s.mac && t.camType == s.camType)
      && t.handle == HANDLE_NONE && !t.desired && !t.gattReady
      && (t.ctx.Some? <==> s.ctx.Some?)
    ensures forall a :: FindByAddr(Init(w.mgr.nvs).cams, a) == FindByAddr(w.mgr.cams, a)
  {
    var boot := Init(w.mgr.nvs).cams;
    forall j | 0 <= j < MAX_BONDS
      ensures Mirrored(w.mgr.cams[j].slot, w.mgr.nvs[j])
      ensures forall a :: HasAddr(boot[j].slot, a) <==> HasAddr(w.mgr.cams[j].slot, a)
    {
      assert Mirrored(w.mgr.cams[j].slot, w.mgr.nvs[j]);
    }
    forall a ensures FindByAddr(boot, a) == FindByAddr(w.mgr.cams, a) {
      assert forall j | 0 <= j < MAX_BONDS :: HasAddr(boot[j].slot, a) <==> HasAddr(w.mgr.cams[j].slot, a);
    }
  }

  // ---- Status views --------------------------------------------------------------------------

  /** The status field of camera_manager_get_slot_info, in that function's own order of tests. */
  function InfoStatus(s: Slot): Status {
    if !s.configured then NotConfigured
    else if s.handle == HANDLE_NONE then Disconnected
    else if s.ctx.Some? && s.gattReady then
      if s.ctx.value.status == Active then Recording else Connected
    else Connected
  }

  /** After a tick all views of a slot agree: slot info, the derived status, the CAN byte, and being among the
      cameras has_disconnected_cameras counts. */
  lemma ViewsAgree(w: World, accept: nat -> bool, i: nat)
    requires Inv(w) && i < MAX_BONDS
    ensures var m := Tick(w.mgr, accept); var s := m.cams[i].slot;
      && InfoStatus(s) == SlotStatus(s) && m.can[i] == CanState(SlotStatus(s))
      && (m.can[i] == 1 ==> HasDisconnected(m.cams))
    ensures HasDisconnected(Tick(w.mgr, accept).cams) <==> 1 in Tick(w.mgr, accept).can
  {
    var m := Tick(w.mgr, accept);
    HasDisconnectedMeaning(m.cams);
    if HasDisconnected(m.cams) {
      var j :| 0 <= j < |m.cams| && m.cams[j].slot.configured && m.cams[j].slot.handle == HANDLE_NONE;
      assert m.can[j] == 1;
    }
  }
}
