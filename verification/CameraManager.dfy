/** camera_manager.c, pairing.c and the driver entry points of control.c over the static slot array, updated in
    place; every method refines the function of the same purpose in Cameras.dfy. */
module CameraManager {
  import opened Base
  import opened QueryResponses
  import opened Cameras
  import opened Lifecycle

  class SlotTable {
    const slots: array<Slot>
    const nvs: array<Option<Record>>
    const can: array<nat>
    var autoControl: bool
    ghost var traces: seq<seq<Mark>>

    ghost predicate Valid()
      reads this
    {
      slots.Length == nvs.Length == can.Length == |traces| == MAX_BONDS
    }

    ghost function Cams(): (r: seq<Camera>)
      requires Valid()
      reads this, slots
      ensures |r| == MAX_BONDS && forall i | 0 <= i < MAX_BONDS :: r[i] == Camera(slots[i], traces[i])
    {
      var ss, ts := slots[..], traces;
      seq(MAX_BONDS, i requires 0 <= i < MAX_BONDS => Camera(ss[i], ts[i]))
    }

    ghost function State(): (m: Manager)
      requires Valid()
      reads this, slots, nvs, can
      ensures Sized(m)
    {
      Manager(Cams(), nvs[..], can[..], autoControl)
    }

    /** The table invariant of Lifecycle.dfy, given the live links. */
    ghost predicate Holds(links: map<nat, Addr>)
      requires Valid()
      reads this, slots, nvs, can
    {
      Lifecycle.Inv(World(State(), links))
    }

    /** camera_manager_init, from what NVS holds. */
    constructor (stored: seq<Option<Record>>)
      requires |stored| == MAX_BONDS
      ensures Valid() && State() == Cameras.Init(stored)
      ensures ValidNvs(stored) ==> Holds(map[])
      ensures fresh(slots) && fresh(nvs) && fresh(can)
    {
      slots := new Slot[MAX_BONDS](_ => BLANK);
      nvs := new Option<Record>[MAX_BONDS](i requires 0 <= i < MAX_BONDS => stored[i]);
      can := new nat[MAX_BONDS](_ => 0);
      autoControl := true;
      traces := seq(MAX_BONDS, _ => [NewContext]);
      new;
      for i := 0 to MAX_BONDS
        invariant Valid()
        invariant nvs[..] == stored && can[..] == [0, 0, 0, 0] && autoControl
        invariant forall k | 0 <= k < MAX_BONDS :: traces[k] == [NewContext]
        invariant forall k | 0 <= k < i :: slots[k] == Cameras.LoadSlot(stored[k])
        invariant forall k | i <= k < MAX_BONDS :: slots[k] == BLANK
      {
        LoadSlot(i);
      }
      assert Cams() == Cameras.Init(stored).cams;
      if ValidNvs(stored) {
        BootInv(stored);
      }
    }

    /** load_slot: copy the record into the blank slot and create a context if the type has a driver. */
    method LoadSlot(i: nat)
      requires Valid() && i < MAX_BONDS && slots[i] == BLANK
      modifies slots
      ensures Valid() && slots[i] == Cameras.LoadSlot(nvs[i])
      ensures forall k | 0 <= k < MAX_BONDS && k != i :: slots[k] == old(slots[k])
    {
      if nvs[i].None? {
        return;
      }
      var rec := nvs[i].value;
      slots[i] := slots[i].(name := rec.name, mac := rec.mac, configured := rec.configured, camType := rec.camType);
      if rec.camType == CAMERA_TYPE_GOPRO_BLE {
        slots[i] := slots[i].(ctx := Some(FRESH_CTX));
      }
    }

    // ---- Searches and counts -----------------------------------------------------------------

    method FindByAddr(a: Addr) returns (r: int)
      requires Valid()
      ensures r == Cameras.FindByAddr(Cams(), a)
    {
      var i := 0;
      while i < slots.Length
        invariant 0 <= i <= slots.Length
        invariant forall k | 0 <= k < i :: !HasAddr(slots[k], a)
      {
        if slots[i].configured && slots[i].mac == a {
          return i;
        }
        i := i + 1;
      }
      return -1;
    }

    method FindFreeSlot() returns (r: int)
      requires Valid()
      ensures r == FindFree(Cams())
    {
      var i := 0;
      while i < slots.Length
        invariant 0 <= i <= slots.Length
        invariant forall k | 0 <= k < i :: slots[k].configured
      {
        if !slots[i].configured {
          return i;
        }
        i := i + 1;
      }
      return -1;
    }

    method FindSlotByHandle(h: nat) returns (r: int)
      requires Valid() && h != HANDLE_NONE
      ensures r == FindByHandle(Cams(), h)
    {
      var i := 0;
      while i < slots.Length
        invariant 0 <= i <= slots.Length
        invariant forall k | 0 <= k < i :: slots[k].handle != h
      {
        if slots[i].handle == h {
          return i;
        }
        i := i + 1;
      }
      return -1;
    }

    method RememberedCount() returns (count: nat)
      requires Valid()
      ensures count == Remembered(Cams())
    {
      count := 0;
      for i := 0 to slots.Length
        invariant count == Remembered(Cams()[..i])
      {
        assert Cams()[..i + 1][..i] == Cams()[..i];
        if slots[i].configured {
          count := count + 1;
        }
      }
      assert Cams()[..MAX_BONDS] == Cams();
    }

    method CountConnected() returns (count: nat)
      requires Valid()
      ensures count == ConnectedCount(Cams())
    {
      count := 0;
      for i := 0 to slots.Length
        invariant count == ConnectedCount(Cams()[..i])
      {
        assert Cams()[..i + 1][..i] == Cams()[..i];
        if slots[i].configured && slots[i].handle != HANDLE_NONE {
          count := count + 1;
        }
      }
      assert Cams()[..MAX_BONDS] == Cams();
    }

    /** camera_manager_has_disconnected_cameras: exactly when some configured slot has no handle. */
    method HasDisconnectedCameras() returns (r: bool)
      requires Valid()
      ensures r == HasDisconnected(Cams())
      ensures r <==> exists i :: 0 <= i < MAX_BONDS && slots[i].configured && slots[i].handle == HANDLE_NONE
    {
      var remembered := RememberedCount();
      var connected := CountConnected();
      HasDisconnectedMeaning(Cams());
      r := remembered > connected;
      assert forall i | 0 <= i < MAX_BONDS :: Cams()[i].slot == slots[i];
    }

    method ComputeSlotStatus(i: nat) returns (s: Status)
      requires Valid() && i < MAX_BONDS
      ensures s == SlotStatus(slots[i])
    {
      var slot := slots[i];
      if !slot.configured {
        return NotConfigured;
      }
      if slot.handle == HANDLE_NONE {
        return Disconnected;
      }
      if slot.ctx.None? || !slot.gattReady {
        return Connected;
      }
      return if slot.ctx.value.status == Active then Status.Recording else Connected;
    }

    // ---- Writing one slot --------------------------------------------------------------------

    /** Assign slot i, with the marks the assignment leaves in the history. */
    method Put(i: nat, s: Slot, ghost marks: seq<Mark>)
      requires Valid() && i < MAX_BONDS
      modifies slots, `traces
      ensures Valid() && State() == SetCam(old(State()), i, Camera(s, old(traces[i]) + marks))
      ensures slots[i] == s
    {
      slots[i] := s;
      traces := traces[i := traces[i] + marks];
      assert Cams() == old(Cams())[i := Camera(s, old(traces[i]) + marks)];
    }

    method NotifySlotState(i: nat)
      requires Valid() && i < MAX_BONDS
      modifies can
      ensures Valid() && State() == Notify(old(State()), i)
    {
      var status := ComputeSlotStatus(i);
      can[i] := CanState(status);
      assert Cams() == old(Cams());
    }

    /** camera_manager_on_connected. */
    method OnConnected(i: nat, h: nat)
      requires Valid() && i < MAX_BONDS
      modifies slots, `traces, can
      ensures Valid() && State() == Cameras.OnConnected(old(State()), i, h)
    {
      assert traces[i] + [] == traces[i];
      Put(i, slots[i].(handle := h), []);
      NotifySlotState(i);
    }

    /** camera_manager_on_disconnected: the loop stops at the first slot with the handle. */
    method OnDisconnected(h: nat)
      requires Valid()
      modifies slots, `traces, can
      ensures Valid() && State() == Cameras.OnDisconnected(old(State()), h)
    {
      var i := 0;
      while i < MAX_BONDS
        invariant 0 <= i <= MAX_BONDS && Valid() && State() == old(State())
        invariant forall k | 0 <= k < i :: Cams()[k].slot.handle != h
      {
        if slots[i].handle == h {
          assert FindByHandle(Cams(), h) == i;
          assert traces[i] + [] == traces[i];
          Put(i, slots[i].(handle := HANDLE_NONE, gattReady := false), []);
          NotifySlotState(i);
          return;
        }
        i := i + 1;
      }
      assert FindByHandle(Cams(), h) < 0;
    }

    /** camera_manager_set_gatt_ready. */
    method SetGattReady(i: nat, ready: bool)
      requires Valid() && i < MAX_BONDS
      modifies slots, `traces, can
      ensures Valid() && State() == Cameras.SetGattReady(old(State()), i, ready)
    {
      assert traces[i] + [] == traces[i];
      Put(i, slots[i].(gattReady := ready), []);
      NotifySlotState(i);
    }

    /** camera_manager_save_slot. */
    method SaveSlot(i: nat)
      requires Valid() && i < MAX_BONDS
      modifies nvs
      ensures Valid() && State() == Cameras.SaveSlot(old(State()), i)
    {
      var s := slots[i];
      nvs[i] := Some(Record(s.name, s.mac, s.configured, s.camType));
      assert Cams() == old(Cams());
    }

    /** camera_manager_remove_slot. */
    method RemoveSlot(i: nat)
      requires Valid() && i < MAX_BONDS
      modifies slots, `traces, nvs
      ensures Valid() && State() == Cameras.RemoveSlot(old(State()), i)
    {
      assert traces[i] + [] == traces[i];
      Put(i, BLANK, []);
      label cleared:
      nvs[i] := None;
      assert Cams() == old@cleared(Cams());
    }

    /** camera_manager_register_new: the slot of a known address, or a free slot filled in, or -1. */
    method RegisterNew(a: Addr, name: string, ctx: DriverCtx) returns (slot: int)
      requires Valid()
      modifies slots, `traces
      ensures Valid()
      ensures var known, free := Cameras.FindByAddr(old(Cams()), a), FindFree(old(Cams()));
        if known >= 0 then slot == known && State() == old(State())
        else slot == free && (if free < 0 then State() == old(State())
          else State() == SetCam(old(State()), free,
                 Camera(RegisteredSlot(old(slots[free]), a, name, ctx), old(traces[free]) + [NewContext])))
    {
      slot := FindByAddr(a);
      if slot >= 0 {
        return;
      }
      slot := FindFreeSlot();
      if slot < 0 {
        return;
      }
      var s := slots[slot];
      s := s.(name := name, mac := a, configured := true, camType := CAMERA_TYPE_GOPRO_BLE);
      s := s.(ctx := Some(ctx), handle := HANDLE_NONE, gattReady := false);
      Put(slot, s, [NewContext]);
    }

    // ---- Connection callbacks ----------------------------------------------------------------

    /** ctx->conn_handle = h. */
    method SetCtxHandle(i: nat, h: nat)
      requires Valid() && i < MAX_BONDS
      modifies slots, `traces
      ensures Valid() && State() == SetCam(old(State()), i, WithCtxHandle(old(State()).cams[i], h))
    {
      assert traces[i] + [] == traces[i];
      var s := slots[i];
      Put(i, if s.ctx.Some? then s.(ctx := Some(s.ctx.value.(connHandle := h))) else s, []);
    }

    /** gopro_on_connected_cb. */
    method OnConnectedCb(h: nat, a: Addr)
      requires Valid()
      modifies slots, `traces, can
      ensures Valid() && State() == ConnectedCb(old(State()), h, a)
      ensures forall links: map<nat, Addr> |
        old(Holds(links)) && h !in links && h != HANDLE_NONE && a !in links.Values ::
        Holds(links[h := a])
    {
      var i := FindByAddr(a);
      if i >= 0 {
        OnConnected(i, h);
        SetCtxHandle(i, h);
      }
      forall links: map<nat, Addr> | old(Holds(links)) && h !in links && h != HANDLE_NONE && a !in links.Values
        ensures Holds(links[h := a])
      {
        StepKeeps(World(old(State()), links), Link(h, a));
      }
    }

    /** gopro_on_encrypted_cb, up to start_gatt_discovery. */
    method OnEncryptedCb(h: nat, a: Addr)
      requires Valid()
      modifies this, slots, nvs, can
      ensures Valid() && State() == EncryptedCb(old(State()), h, a)
      ensures forall links | old(Holds(links)) && h in links && links[h] == a :: Holds(links)
    {
      EncryptedKeepsAll(State(), h, a);
      var i := FindByAddr(a);
      if i < 0 {
        i := RegisterNew(a, PlaceholderName(a), FRESH_CTX.(firstPairing := true));
        if i < 0 {
          return;
        }
        SaveSlot(i);
        assert State() == RegisterCamera(old(State()), i, a);
      }
      assert State().cams[i].slot == slots[i];
      if slots[i].handle == HANDLE_NONE {
        OnConnected(i, h);
      }
      SetCtxHandle(i, h);
    }

    /** gopro_on_disconnected_cb: the context first, then the slot. */
    method OnDisconnectedCb(h: nat)
      requires Valid() && h != HANDLE_NONE
      modifies slots, `traces, can
      ensures Valid() && State() == DisconnectedCb(old(State()), h)
      ensures forall links | old(Holds(links)) && h in links :: Holds(links - {h})
    {
      UnlinkKeepsAll(State(), h);
      var i := FindSlotByHandle(h);
      if i >= 0 {
        var s := slots[i];
        if s.ctx.Some? {
          var g := s.ctx.value;
          g := g.(connHandle := HANDLE_NONE, status := Unknown, startPending := false, gatt := map[]);
          Put(i, s.(ctx := Some(g)), [Dropped]);
        } else {
          assert State() == SetCam(State(), i, DropCtx(State().cams[i]));
        }
      } else {
        OnDisconnectedAbsent(State(), h);
      }
      OnDisconnected(h);
    }

    /** The end of GATT discovery (cccd_write_cb, or start_cccd_subscriptions without one). */
    method FinishDiscovery(h: nat, handles: Handles, ready: bool)
      requires Valid() && h != HANDLE_NONE
      modifies slots, `traces, can
      ensures Valid() && State() == DiscoveryDone(old(State()), h, handles, ready)
    {
      var i := FindSlotByHandle(h);
      if i < 0 {
        return;
      }
      var s := slots[i];
      assert traces[i] + [] == traces[i];
      if s.ctx.Some? {
        var g := s.ctx.value.(gatt := handles);
        if ready && g.firstPairing && HandleOf(handles, GP_NETWORK_MGMT) != 0 {
          g := g.(firstPairing := false);
        }
        Put(i, s.(ctx := Some(g)), []);
      } else {
        assert State() == SetCam(State(), i, State().cams[i]);
      }
      if ready {
        SetGattReady(i, true);
      }
    }

    // ---- Driver calls ------------------------------------------------------------------------

    /** slot->driver->start_recording(slot->driver_ctx). */
    method StartRecording(i: nat, accept: bool) returns (ok: bool)
      requires Valid() && i < MAX_BONDS && slots[i].ctx.Some?
      modifies slots, `traces
      ensures Valid() && State() == SetCam(old(State()), i, Cameras.StartRecording(old(State()).cams[i], accept))
      ensures ok == StartOk(old(slots[i]), accept)
    {
      var s := slots[i];
      var g := s.ctx.value;
      assert State() == SetCam(State(), i, State().cams[i]);
      if HandleOf(g.gatt, GP_CMD) == 0 {
        return false;
      }
      if g.startPending {
        return false;
      }
      if !accept {
        return false;
      }
      Put(i, s.(ctx := Some(g.(startPending := true))), [StartSent]);
      return true;
    }

    /** slot->driver->stop_recording(slot->driver_ctx). */
    method StopRecording(i: nat)
      requires Valid() && i < MAX_BONDS && slots[i].ctx.Some?
      modifies slots, `traces
      ensures Valid() && State() == SetCam(old(State()), i, Cameras.StopRecording(old(State()).cams[i]))
    {
      var s := slots[i];
      var g := s.ctx.value;
      assert State() == SetCam(State(), i, State().cams[i]);
      if HandleOf(g.gatt, GP_CMD) == 0 {
        return;
      }
      Put(i, s.(ctx := Some(g.(startPending := false))), [StopCalled]);
    }

    /** camera_manager_set_desired_recording. */
    method SetDesiredRecording(on: bool)
      requires Valid()
      modifies slots
      ensures Valid() && State() == SetDesired(old(State()), on)
    {
      for i := 0 to MAX_BONDS
        invariant Valid() && forall k | i <= k < MAX_BONDS :: slots[k] == old(slots[k])
        invariant forall k | 0 <= k < i :: slots[k] == old(slots[k]).(desired := on)
      {
        slots[i] := slots[i].(desired := on);
      }
      assert Cams() == SetDesired(old(State()), on).cams;
    }

    /** camera_manager_start_recording_all. */
    method StartRecordingAll(accept: nat -> bool)
      requires Valid()
      modifies slots, `traces
      ensures Valid() && State() == StartAll(old(State()), accept)
    {
      for i := 0 to MAX_BONDS
        invariant Valid() && State() == old(State()).(cams := Cams())
        invariant forall k | i <= k < MAX_BONDS :: Cams()[k] == old(Cams())[k]
        invariant forall k | 0 <= k < i :: Cams()[k] == StartOne(old(Cams())[k], accept(k))
      {
        assert Cams()[i].slot == slots[i];
        if slots[i].configured && slots[i].handle != HANDLE_NONE && slots[i].gattReady && slots[i].ctx.Some? {
          var _ := StartRecording(i, accept(i));
        }
      }
      assert Cams() == StartAll(old(State()), accept).cams;
    }

    /** camera_manager_stop_recording_all. */
    method StopRecordingAll()
      requires Valid()
      modifies slots, `traces
      ensures Valid() && State() == StopAll(old(State()))
    {
      for i := 0 to MAX_BONDS
        invariant Valid() && State() == old(State()).(cams := Cams())
        invariant forall k | i <= k < MAX_BONDS :: Cams()[k] == old(Cams())[k]
        invariant forall k | 0 <= k < i :: Cams()[k] == StopOne(old(Cams())[k])
      {
        assert Cams()[i].slot == slots[i];
        if slots[i].configured && slots[i].handle != HANDLE_NONE && slots[i].gattReady && slots[i].ctx.Some? {
          StopRecording(i);
        }
      }
      assert Cams() == StopAll(old(State())).cams;
    }

    /** camera_manager_set_recording_slot. */
    method SetRecordingSlot(i: nat, on: bool, accept: bool)
      requires Valid() && i < MAX_BONDS
      modifies slots, `traces
      ensures Valid() && State() == SetCam(old(State()), i, ShutterOne(old(State()).cams[i], on, accept))
    {
      assert traces[i] + [] == traces[i];
      assert State() == SetCam(State(), i, State().cams[i]);
      if !slots[i].configured {
        return;
      }
      Put(i, slots[i].(desired := on), []);
      assert State().cams[i].slot == slots[i];
      if slots[i].handle == HANDLE_NONE || !slots[i].gattReady || slots[i].ctx.None? {
        return;
      }
      if on {
        var _ := StartRecording(i, accept);
      } else {
        StopRecording(i);
      }
      assert State().cams == old(State()).cams[i := State().cams[i]];
    }

    /** camera_manager_tick. */
    method Tick(accept: nat -> bool)
      requires Valid()
      modifies slots, `traces, can
      ensures Valid() && State() == Cameras.Tick(old(State()), accept)
    {
      for i := 0 to MAX_BONDS
        invariant Valid() && State() == old(State()).(cams := Cams())
        invariant forall k | i <= k < MAX_BONDS :: Cams()[k] == old(Cams())[k]
        invariant forall k | 0 <= k < i :: Cams()[k] == TickOne(old(Cams())[k], accept(k))
      {
        var slot := slots[i];
        assert Cams()[i].slot == slot;
        if slot.configured && slot.handle != HANDLE_NONE && slot.gattReady && slot.ctx.Some? {
          if slot.desired {
            if slot.ctx.value.status != Active {
              var _ := StartRecording(i, accept(i));
            }
          }
        }
      }
      assert Cams() == Cameras.Tick(old(State()), accept).cams;
      PublishAll();
    }

    /** The second loop of camera_manager_tick. */
    method PublishAll()
      requires Valid()
      modifies can
      ensures Valid() && State() == NotifyAll(old(State()))
    {
      for i := 0 to MAX_BONDS
        invariant Valid() && State() == old(State()).(can := can[..])
        invariant forall k | 0 <= k < i :: can[k] == CanState(SlotStatus(slots[k]))
      {
        NotifySlotState(i);
      }
      assert can[..] == NotifyAll(old(State())).can;
    }

    /** The recording-status branch of handle_query_response on a slot that passed the ready gate. */
    method HandleStatusResponse(h: nat, data: seq<byte>)
      requires Valid() && h != HANDLE_NONE && RouteOf(data) == ToStatus
      modifies slots, `traces
      ensures Valid() && State() == OnStatus(old(State()), h, Flags(data[3..]))
      ensures forall links | old(Holds(links)) && h in links :: Holds(links)
    {
      StatusKeepsAll(State(), h, Flags(data[3..]));
      var i := FindSlotByHandle(h);
      if i < 0 || slots[i].ctx.None? || !slots[i].gattReady {
        assert i >= 0 ==> State() == SetCam(State(), i, State().cams[i]);
        return;
      }
      var g := slots[i].ctx.value;
      var p := Progress(g.status, g.startPending);
      var q := WalkStatus(data, p);
      Put(i, slots[i].(ctx := Some(g.(status := q.status, startPending := q.startPending))),
          ChangeMarks(p, Flags(data[3..])));
    }

    /** on_logging_state_changed of main.c. */
    method OnLoggingStateChanged(state: Logging, accept: nat -> bool)
      requires Valid()
      modifies slots, `traces
      ensures Valid() && State() == OnLogging(old(State()), state, accept)
    {
      if !autoControl {
        return;
      }
      match state
      case LoggingOn =>
        SetDesiredRecording(true);
        StartRecordingAll(accept);
      case NotLogging =>
        SetDesiredRecording(false);
        StopRecordingAll();
      case LoggingUnknown =>
    }

    /** camera_manager_set_auto_control. */
    method SetAutoControl(enabled: bool)
      requires Valid()
      modifies `autoControl
      ensures Valid() && State() == old(State()).(autoControl := enabled)
    {
      autoControl := enabled;
    }

    /** The web shutter without a slot number. */
    method Shutter(on: bool, accept: nat -> bool)
      requires Valid()
      modifies slots, `traces
      ensures Valid() && State() == ShutterAll(old(State()), on, accept)
    {
      SetDesiredRecording(on);
      if on {
        StartRecordingAll(accept);
      } else {
        StopRecordingAll();
      }
    }

    /** Whatever reaches the manager from its own timer, the CAN task, the web server or GATT discovery; status
        responses come as bytes, through HandleStatusResponse. */
    method Handle(e: Lifecycle.Event)
      requires Valid() && IsCommand(e)
      requires e.Discovered? ==> e.h != HANDLE_NONE
      requires (e.Remove? || e.ShutterSlotCmd?) ==> e.i < MAX_BONDS
      modifies this, slots, nvs, can
      ensures Valid()
      ensures forall links | Lifecycle.Enabled(World(old(State()), links), e) ::
        World(State(), links) == Step(World(old(State()), links), e)
      ensures forall links | old(Holds(links)) && Lifecycle.Enabled(World(old(State()), links), e) :: Holds(links)
    {
      match e {
        case Discovered(h, handles, ready) => FinishDiscovery(h, handles, ready);
        case Remove(i) => RemoveSlot(i);
        case TickTimer(accept) => Tick(accept);
        case LoggingChanged(state, accept) => OnLoggingStateChanged(state, accept);
        case ShutterAllCmd(on, accept) => Shutter(on, accept);
        case ShutterSlotCmd(i, on, ok) => SetRecordingSlot(i, on, ok);
        case AutoControl(enabled) => SetAutoControl(enabled);
      }
      forall links | old(Holds(links)) && Lifecycle.Enabled(World(old(State()), links), e) ensures Holds(links) {
        StepKeeps(World(old(State()), links), e);
      }
    }
  }

  /** Events of the manager that are neither link events nor status responses. */
  predicate IsCommand(e: Lifecycle.Event) { !e.Link? && !e.Encrypted? && !e.Unlink? && !e.StatusResponse? }

  lemma StatusKeepsAll(m: Manager, h: nat, flags: seq<bool>)
    requires Sized(m)
    ensures forall links | Lifecycle.Inv(World(m, links)) && h in links ::
      Lifecycle.Inv(World(OnStatus(m, h, flags), links))
  {
    forall links | Lifecycle.Inv(World(m, links)) && h in links
      ensures Lifecycle.Inv(World(OnStatus(m, h, flags), links))
    {
      StepKeeps(World(m, links), StatusResponse(h, flags));
    }
  }

  lemma UnlinkKeepsAll(m: Manager, h: nat)
    requires Sized(m)
    ensures forall links | Lifecycle.Inv(World(m, links)) && h in links ::
      Lifecycle.Inv(World(DisconnectedCb(m, h), links - {h}))
  {
    forall links | Lifecycle.Inv(World(m, links)) && h in links
      ensures Lifecycle.Inv(World(DisconnectedCb(m, h), links - {h}))
    {
      StepKeeps(World(m, links), Unlink(h));
    }
  }

  lemma EncryptedKeepsAll(m: Manager, h: nat, a: Addr)
    requires Sized(m)
    ensures forall links | Lifecycle.Inv(World(m, links)) && h in links && links[h] == a ::
      Lifecycle.Inv(World(EncryptedCb(m, h, a), links))
  {
    forall links | Lifecycle.Inv(World(m, links)) && h in links && links[h] == a
      ensures Lifecycle.Inv(World(EncryptedCb(m, h, a), links))
    {
      StepKeeps(World(m, links), Encrypted(h));
    }
  }

  /** A handle no slot carries is no business of on_disconnected. */
  lemma OnDisconnectedAbsent(m: Manager, h: nat)
    requires Sized(m) && FindByHandle(m.cams, h) < 0
    ensures Cameras.OnDisconnected(m, h) == m
  {
  }
}
