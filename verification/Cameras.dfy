/** Camera slots, driver contexts and the operations on them (camera_manager.c, pairing.c, control.c), as
    functions on values.  The class in CameraManager.dfy refines them; Lifecycle.dfy proves what runs keep. */
module Cameras {
  import opened Base
  import opened QueryResponses

  /** ble_addr_t: address type and six octets. */
  datatype Addr = Addr(kind: byte, octets: seq<byte>)

  /** GATT handles by GoPro characteristic number (0x0072 for GP-0072); an absent one reads as zero. */
  type Handles = map<nat, nat>

  function HandleOf(hs: Handles, gp: nat): nat { if gp in hs then hs[gp] else 0 }

  const GP_CMD: nat := 0x72
  const GP_NETWORK_MGMT: nat := 0x91
  const CAMERA_TYPE_GOPRO_BLE: nat := 1

  /** gopro_ble_ctx_t. */
  datatype DriverCtx = DriverCtx(connHandle: nat, gatt: Handles, status: Recording, firstPairing: bool,
                                 startPending: bool)

  /** open_gopro_ble_create_driver_ctx. */
  const FRESH_CTX := DriverCtx(HANDLE_NONE, map[], Unknown, false, false)

  /** camera_slot_t; `ctx` stands for the driver pointer and its context, which are always set together. */
  datatype Slot = Slot(name: string, mac: Addr, configured: bool, camType: nat, handle: nat, gattReady: bool,
                       desired: bool, ctx: Option<DriverCtx>)

  const NO_ADDR := Addr(0, [0, 0, 0, 0, 0, 0])

  /** A slot after memset and bt_handle = NONE. */
  const BLANK := Slot("", NO_ADDR, false, 0, HANDLE_NONE, false, false, None)

  /** camera_nv_record_t. */
  datatype Record = Record(name: string, mac: Addr, configured: bool, camType: nat)

  /** History of one slot's driver contexts: what matters to the start-command guard. */
  datatype Mark = StartSent | StopCalled | Changed(before: Recording, after: Recording) | Dropped | NewContext

  datatype Camera = Camera(slot: Slot, trace: seq<Mark>)

  /** The manager: slots with their histories, NVS, the CAN status bytes and the auto-control flag. */
  datatype Manager = Manager(cams: seq<Camera>, nvs: seq<Option<Record>>, can: seq<nat>, autoControl: bool)

  predicate Sized(m: Manager) {
    |m.cams| == MAX_BONDS && |m.nvs| == MAX_BONDS && |m.can| == MAX_BONDS
  }

  // ---- Status --------------------------------------------------------------------------------

  datatype Status = NotConfigured | Disconnected | Connected | Recording

  /** compute_slot_status. */
  function SlotStatus(s: Slot): Status {
    if !s.configured then NotConfigured
    else if s.handle == HANDLE_NONE then Disconnected
    else if s.ctx.None? || !s.gattReady then Connected
    else if s.ctx.value.status == Active then Recording else Connected
  }

  /** on_camera_state_changed: the camera_state_t byte for a status. */
  function CanState(s: Status): nat {
    match s
    case NotConfigured => 0
    case Disconnected => 1
    case Connected => 2
    case Recording => 3
  }

  /** notify_slot_state with the bridge of main.c registered. */
  function Notify(m: Manager, i: nat): (r: Manager)
    requires Sized(m) && i < MAX_BONDS
    ensures Sized(r) && r.cams == m.cams && r.nvs == m.nvs && r.autoControl == m.autoControl
  {
    m.(can := m.can[i := CanState(SlotStatus(m.cams[i].slot))])
  }

  function NotifyAll(m: Manager): (r: Manager)
    requires Sized(m)
    ensures Sized(r) && r.cams == m.cams
  {
    m.(can := seq(MAX_BONDS, i requires 0 <= i < MAX_BONDS => CanState(SlotStatus(m.cams[i].slot))))
  }

  // ---- Searches ------------------------------------------------------------------------------

  predicate HasAddr(s: Slot, a: Addr) { s.configured && s.mac == a }

  /** camera_manager_find_by_addr: the first configured slot with the address, or -1. */
  function FindByAddr(cams: seq<Camera>, a: Addr): (r: int)
    ensures -1 <= r < |cams|
    ensures r >= 0 ==> HasAddr(cams[r].slot, a) && forall i | 0 <= i < r :: !HasAddr(cams[i].slot, a)
    ensures r < 0 ==> forall i | 0 <= i < |cams| :: !HasAddr(cams[i].slot, a)
  {
    if cams == [] then -1
    else
      var r := FindByAddr(cams[..|cams| - 1], a);
      if r >= 0 then r else if HasAddr(cams[|cams| - 1].slot, a) then |cams| - 1 else -1
  }

  /** camera_manager_find_free_slot. */
  function FindFree(cams: seq<Camera>): (r: int)
    ensures -1 <= r < |cams|
    ensures r >= 0 ==> !cams[r].slot.configured && forall i | 0 <= i < r :: cams[i].slot.configured
    ensures r < 0 ==> forall i | 0 <= i < |cams| :: cams[i].slot.configured
  {
    if cams == [] then -1
    else
      var r := FindFree(cams[..|cams| - 1]);
      if r >= 0 then r else if !cams[|cams| - 1].slot.configured then |cams| - 1 else -1
  }

  /** The first slot carrying connection handle h (camera_manager_find_by_handle for h != NONE), or -1. */
  function FindByHandle(cams: seq<Camera>, h: nat): (r: int)
    ensures -1 <= r < |cams|
    ensures r >= 0 ==> cams[r].slot.handle == h && forall i | 0 <= i < r :: cams[i].slot.handle != h
    ensures r < 0 ==> forall i | 0 <= i < |cams| :: cams[i].slot.handle != h
  {
    if cams == [] then -1
    else
      var r := FindByHandle(cams[..|cams| - 1], h);
      if r >= 0 then r else if cams[|cams| - 1].slot.handle == h then |cams| - 1 else -1
  }

  function Remembered(cams: seq<Camera>): nat {
    if cams == [] then 0
    else Remembered(cams[..|cams| - 1]) + if cams[|cams| - 1].slot.configured then 1 else 0
  }

  predicate IsConnected(s: Slot) { s.configured && s.handle != HANDLE_NONE }

  function ConnectedCount(cams: seq<Camera>): nat {
    if cams == [] then 0
    else ConnectedCount(cams[..|cams| - 1]) + if IsConnected(cams[|cams| - 1].slot) then 1 else 0
  }

  /** camera_manager_has_disconnected_cameras. */
  predicate HasDisconnected(cams: seq<Camera>) { Remembered(cams) > ConnectedCount(cams) }

  /** The comparison of counts says exactly that some configured slot has no handle. */
  lemma {:induction false} HasDisconnectedMeaning(cams: seq<Camera>)
    ensures ConnectedCount(cams) <= Remembered(cams)
    ensures HasDisconnected(cams) <==>
      exists i :: 0 <= i < |cams| && cams[i].slot.configured && cams[i].slot.handle == HANDLE_NONE
  {
    if cams == [] {
    } else {
      var n := |cams| - 1;
      HasDisconnectedMeaning(cams[..n]);
      if HasDisconnected(cams) {
        if cams[n].slot.configured && cams[n].slot.handle == HANDLE_NONE {
        } else {
          var i :| 0 <= i < n && cams[..n][i].slot.configured && cams[..n][i].slot.handle == HANDLE_NONE;
          assert cams[i].slot.configured && cams[i].slot.handle == HANDLE_NONE;
        }
      } else {
        forall i | 0 <= i < |cams| ensures !(cams[i].slot.configured && cams[i].slot.handle == HANDLE_NONE) {
          if i < n {
            assert cams[..n][i] == cams[i];
          }
        }
      }
    }
  }

  // ---- Driver operations (control.c) ---------------------------------------------------------

  /** control_start_recording; `accept` is the verdict of ble_core_gatt_write, `sent` whether it took the write. */
  function StartRecording(c: Camera, accept: bool): Camera
    requires c.slot.ctx.Some?
  {
    var g := c.slot.ctx.value;
    if HandleOf(g.gatt, GP_CMD) == 0 || g.startPending || !accept then c
    else Camera(c.slot.(ctx := Some(g.(startPending := true))), c.trace + [StartSent])
  }

  /** Whether control_start_recording returns ESP_OK. */
  predicate StartOk(s: Slot, accept: bool)
    requires s.ctx.Some?
  {
    HandleOf(s.ctx.value.gatt, GP_CMD) != 0 && !s.ctx.value.startPending && accept
  }

  /** control_stop_recording: clears the guard, whether or not the write is taken. */
  function StopRecording(c: Camera): Camera
    requires c.slot.ctx.Some?
  {
    var g := c.slot.ctx.value;
    if HandleOf(g.gatt, GP_CMD) == 0 then c
    else Camera(c.slot.(ctx := Some(g.(startPending := false))), c.trace + [StopCalled])
  }

  /** The four checks shared by the tick and the start/stop functions. */
  predicate Reachable(s: Slot) { IsConnected(s) && s.gattReady && s.ctx.Some? }

  /** One slot of camera_manager_tick. */
  function TickOne(c: Camera, accept: bool): Camera {
    if Reachable(c.slot) && c.slot.desired && c.slot.ctx.value.status != Active
    then StartRecording(c, accept) else c
  }

  function StartOne(c: Camera, accept: bool): Camera {
    if Reachable(c.slot) then StartRecording(c, accept) else c
  }

  function StopOne(c: Camera): Camera {
    if Reachable(c.slot) then StopRecording(c) else c
  }

  /** camera_manager_set_recording_slot on one slot. */
  function ShutterOne(c: Camera, on: bool, accept: bool): Camera {
    if !c.slot.configured then c
    else
      var d := c.(slot := c.slot.(desired := on));
      if on then StartOne(d, accept) else StopOne(d)
  }

  /** The marks left by a status walk. */
  function ChangeMarks(p: Progress, flags: seq<bool>): seq<Mark>
    decreases |flags|
  {
    if flags == [] then []
    else
      var q := Observe(p, flags[0]);
      (if q.status != p.status then [Changed(p.status, q.status)] else []) + ChangeMarks(q, flags[1..])
  }

  /** The status walk of handle_query_response on a slot that has a driver context. */
  function StatusOne(c: Camera, flags: seq<bool>): Camera {
    if c.slot.ctx.None? then c
    else
      var g := c.slot.ctx.value;
      var p := Progress(g.status, g.startPending);
      var q := ObserveAll(p, flags);
      Camera(c.slot.(ctx := Some(g.(status := q.status, startPending := q.startPending))),
             c.trace + ChangeMarks(p, flags))
  }

  // ---- Slot table operations -----------------------------------------------------------------

  function SetCam(m: Manager, i: nat, c: Camera): (r: Manager)
    requires Sized(m) && i < MAX_BONDS
    ensures Sized(r)
  {
    m.(cams := m.cams[i := c])
  }

  /** camera_manager_on_connected. */
  function OnConnected(m: Manager, i: nat, h: nat): (r: Manager)
    requires Sized(m) && i < MAX_BONDS
    ensures Sized(r)
  {
    Notify(SetCam(m, i, m.cams[i].(slot := m.cams[i].slot.(handle := h))), i)
  }

  /** camera_manager_on_disconnected. */
  function OnDisconnected(m: Manager, h: nat): (r: Manager)
    requires Sized(m)
    ensures Sized(r)
  {
    var i := FindByHandle(m.cams, h);
    if i < 0 then m
    else Notify(SetCam(m, i, m.cams[i].(slot := m.cams[i].slot.(handle := HANDLE_NONE, gattReady := false))), i)
  }

  /** camera_manager_set_gatt_ready. */
  function SetGattReady(m: Manager, i: nat, ready: bool): (r: Manager)
    requires Sized(m) && i < MAX_BONDS
    ensures Sized(r)
  {
    Notify(SetCam(m, i, m.cams[i].(slot := m.cams[i].slot.(gattReady := ready))), i)
  }

  function RecordOf(s: Slot): Record { Record(s.name, s.mac, s.configured, s.camType) }

  /** camera_manager_save_slot, with NVS writes that succeed. */
  function SaveSlot(m: Manager, i: nat): (r: Manager)
    requires Sized(m) && i < MAX_BONDS
    ensures Sized(r)
  {
    m.(nvs := m.nvs[i := Some(RecordOf(m.cams[i].slot))])
  }

  /** camera_manager_remove_slot. */
  function RemoveSlot(m: Manager, i: nat): (r: Manager)
    requires Sized(m) && i < MAX_BONDS
    ensures Sized(r)
  {
    SetCam(m, i, m.cams[i].(slot := BLANK)).(nvs := m.nvs[i := None])
  }

  /** load_slot into a blank slot: a driver context only when a driver is registered for the type. */
  function LoadSlot(rec: Option<Record>): Slot {
    if rec.None? then BLANK
    else BLANK.(name := rec.value.name, mac := rec.value.mac, configured := rec.value.configured,
                camType := rec.value.camType,
                ctx := if rec.value.camType == CAMERA_TYPE_GOPRO_BLE then Some(FRESH_CTX) else None)
  }

  /** camera_manager_init from the NVS contents, with can_manager_init done. */
  function Init(nvs: seq<Option<Record>>): (m: Manager)
    requires |nvs| == MAX_BONDS
    ensures Sized(m)
  {
    Manager(seq(MAX_BONDS, i requires 0 <= i < MAX_BONDS => Camera(LoadSlot(nvs[i]), [NewContext])),
            nvs, [0, 0, 0, 0], true)
  }

  /** The slot camera_manager_register_new fills; the desired flag of the free slot is kept. */
  function RegisteredSlot(s: Slot, a: Addr, name: string, ctx: DriverCtx): Slot {
    s.(name := name, mac := a, configured := true, camType := CAMERA_TYPE_GOPRO_BLE, handle := HANDLE_NONE,
       gattReady := false, ctx := Some(ctx))
  }

  // ---- Connection callbacks (pairing.c) ------------------------------------------------------

  function HexDigit(n: nat): char
    requires n < 16
  {
    if n < 10 then '0' + n as char else 'A' + (n - 10) as char
  }

  function Hex(b: byte): string { [HexDigit(b / 16), HexDigit(b % 16)] }

  /** The placeholder "GoPro XXXX" made of the two low octets. */
  function PlaceholderName(a: Addr): string {
    if |a.octets| < 2 then "GoPro " else "GoPro " + Hex(a.octets[1]) + Hex(a.octets[0])
  }

  /** ctx->conn_handle = h, when there is a context. */
  function WithCtxHandle(c: Camera, h: nat): Camera {
    if c.slot.ctx.None? then c else c.(slot := c.slot.(ctx := Some(c.slot.ctx.value.(connHandle := h))))
  }

  /** gopro_on_connected_cb. */
  function ConnectedCb(m: Manager, h: nat, a: Addr): (r: Manager)
    requires Sized(m)
    ensures Sized(r)
  {
    var i := FindByAddr(m.cams, a);
    if i < 0 then m
    else
      var n := OnConnected(m, i, h);
      SetCam(n, i, WithCtxHandle(n.cams[i], h))
  }

  /** The registration branch of gopro_on_encrypted_cb, in a free slot. */
  function RegisterCamera(m: Manager, i: nat, a: Addr): (r: Manager)
    requires Sized(m) && i < MAX_BONDS
    ensures Sized(r)
  {
    SaveSlot(SetCam(m, i, Camera(
      RegisteredSlot(m.cams[i].slot, a, PlaceholderName(a), FRESH_CTX.(firstPairing := true)),
      m.cams[i].trace + [NewContext])), i)
  }

  /** gopro_on_encrypted_cb, up to start_gatt_discovery. */
  function EncryptedCb(m: Manager, h: nat, a: Addr): (r: Manager)
    requires Sized(m)
    ensures Sized(r)
  {
    var known, free := FindByAddr(m.cams, a), FindFree(m.cams);
    if known < 0 && free < 0 then m
    else
      var i := if known >= 0 then known else free;
      var m1 := if known >= 0 then m else RegisterCamera(m, i, a);
      var m2 := if m1.cams[i].slot.handle == HANDLE_NONE then OnConnected(m1, i, h) else m1;
      SetCam(m2, i, WithCtxHandle(m2.cams[i], h))
  }

  /** The driver-context part of gopro_on_disconnected_cb. */
  function DropCtx(c: Camera): Camera {
    if c.slot.ctx.None? then c
    else Camera(c.slot.(ctx := Some(c.slot.ctx.value.(connHandle := HANDLE_NONE, status := Unknown,
                                                      startPending := false, gatt := map[]))),
                c.trace + [Dropped])
  }

  /** gopro_on_disconnected_cb. */
  function DisconnectedCb(m: Manager, h: nat): (r: Manager)
    requires Sized(m)
    ensures Sized(r)
  {
    var i := FindByHandle(m.cams, h);
    if i < 0 then m else OnDisconnected(SetCam(m, i, DropCtx(m.cams[i])), h)
  }

  /** The end of GATT discovery on connection h: the handles are stored, and the slot is ready unless no
      notifying characteristic was found. */
  function DiscoveryDone(m: Manager, h: nat, handles: Handles, ready: bool): (r: Manager)
    requires Sized(m)
    ensures Sized(r)
  {
    var i := FindByHandle(m.cams, h);
    if i < 0 then m
    else
      var c := m.cams[i];
      var c1 := if c.slot.ctx.None? then c
                else c.(slot := c.slot.(ctx := Some(c.slot.ctx.value.(gatt := handles, firstPairing :=
                  c.slot.ctx.value.firstPairing && !(ready && HandleOf(handles, GP_NETWORK_MGMT) != 0)))));
      if ready then SetGattReady(SetCam(m, i, c1), i, true) else SetCam(m, i, c1)
  }

  // ---- Operations over all slots -------------------------------------------------------------

  /** camera_manager_tick: re-send start where recording is wanted but not seen, then publish every status. */
  function Tick(m: Manager, accept: nat -> bool): (r: Manager)
    requires Sized(m)
    ensures Sized(r)
  {
    NotifyAll(m.(cams := seq(MAX_BONDS, i requires 0 <= i < MAX_BONDS => TickOne(m.cams[i], accept(i)))))
  }

  function SetDesired(m: Manager, on: bool): (r: Manager)
    requires Sized(m)
    ensures Sized(r)
  {
    m.(cams := seq(MAX_BONDS, i requires 0 <= i < MAX_BONDS =>
                 m.cams[i].(slot := m.cams[i].slot.(desired := on))))
  }

  function StartAll(m: Manager, accept: nat -> bool): (r: Manager)
    requires Sized(m)
    ensures Sized(r)
  {
    m.(cams := seq(MAX_BONDS, i requires 0 <= i < MAX_BONDS => StartOne(m.cams[i], accept(i))))
  }

  function StopAll(m: Manager): (r: Manager)
    requires Sized(m)
    ensures Sized(r)
  {
    m.(cams := seq(MAX_BONDS, i requires 0 <= i < MAX_BONDS => StopOne(m.cams[i])))
  }

  /** The web shutter on all cameras, and the logging callback of main.c once auto-control let it through. */
  function ShutterAll(m: Manager, on: bool, accept: nat -> bool): (r: Manager)
    requires Sized(m)
    ensures Sized(r)
  {
    if on then StartAll(SetDesired(m, true), accept) else StopAll(SetDesired(m, false))
  }
}
