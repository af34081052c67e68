/** The handlers of ble_connect.c, ble_scan.c and ble_init.c on their static state, refining Supervision.dfy.
    The radio and the links belong to the NimBLE stub; the manager is the one of CameraManager.dfy. */
module BleCore {
  import opened Base
  import opened Cameras
  import opened CameraManager
  import QueryResponses
  import opened Supervision
  import Lifecycle

  /** What reaches the firmware: an event of Supervision.dfy, or a status response as the bytes received. */
  datatype Input = Gap(e: Supervision.Event) | StatusNotification(h: nat, data: seq<byte>)

  predicate ValidInput(x: Input) {
    match x
    case Gap(e) => !(e.Local? && e.e.StatusResponse?)
    case StatusNotification(_, data) => QueryResponses.RouteOf(data) == QueryResponses.ToStatus
  }

  /** The event an input stands for. */
  function EventOf(x: Input): Supervision.Event
    requires ValidInput(x)
  {
    match x
    case Gap(e) => e
    case StatusNotification(h, data) => Local(Lifecycle.StatusResponse(h, QueryResponses.Flags(data[3..])))
  }

  function EventsOf(xs: seq<Input>): seq<Supervision.Event>
    requires forall x | x in xs :: ValidInput(x)
  {
    if xs == [] then [] else [EventOf(xs[0])] + EventsOf(xs[1..])
  }

  lemma RunFirst(b: Ble, xs: seq<Input>, k: nat)
    requires Sized(b.world.mgr) && k < |xs| && forall x | x in xs :: ValidInput(x)
    requires ValidRun(b, EventsOf(xs[k..]))
    ensures Enabled(b, EventOf(xs[k])) && ValidRun(Step(b, EventOf(xs[k])), EventsOf(xs[k + 1..]))
    ensures After(b, EventsOf(xs[k..])) == After(Step(b, EventOf(xs[k])), EventsOf(xs[k + 1..]))
  {
    assert xs[k..][1..] == xs[k + 1..];
    assert EventsOf(xs[k..]) == [EventOf(xs[k])] + EventsOf(xs[k + 1..]);
    assert EventsOf(xs[k..])[1..] == EventsOf(xs[k + 1..]);
  }

  class Core {
    const mgr: SlotTable
    var radio: Radio
    var links: map<nat, Addr>
    var connecting: bool
    const pendingReconnect: array<Addr>
    var pendingCount: nat
    var pendingIdx: nat
    var backoffAddr: Addr
    var backoffPending: bool
    var timerArmed: bool
    var eventQueued: bool
    var encFailed: bool
    var encFailedAddr: Addr
    ghost var attempts: seq<Addr>

    ghost predicate Valid()
      reads this, mgr
    {
      mgr.Valid() && pendingReconnect.Length == MAX_BONDS && pendingCount <= MAX_BONDS
    }

    ghost function State(): (b: Ble)
      requires Valid()
      reads this, mgr, mgr.slots, mgr.nvs, mgr.can, pendingReconnect
      ensures Sized(b.world.mgr)
    {
      Ble(radio, Lifecycle.World(mgr.State(), links), connecting, pendingReconnect[..pendingCount], pendingIdx,
          backoffAddr, backoffPending, timerArmed, eventQueued, encFailed, encFailedAddr, attempts)
    }

    /** The invariant of Supervision.dfy, the table invariant below it included, and nobody abandoned. */
    ghost predicate Safe()
      requires Valid()
      reads this, mgr, mgr.slots, mgr.nvs, mgr.can, pendingReconnect
    {
      Supervision.Inv(State()) && NoneAbandoned(State())
    }

    /** The state at power-on, over a loaded manager. */
    constructor (mgr: SlotTable)
      requires mgr.Valid()
      ensures this.mgr == mgr && Valid() && fresh(pendingReconnect)
      ensures State().world == Lifecycle.World(mgr.State(), map[])
      ensures mgr.Holds(map[]) ==> AtSync(State())
    {
      this.mgr := mgr;
      radio, links, connecting := Idle, map[], false;
      pendingReconnect := new Addr[MAX_BONDS](_ => NO_ADDR);
      pendingCount, pendingIdx := 0, 0;
      backoffAddr, backoffPending, timerArmed, eventQueued := NO_ADDR, false, false, false;
      encFailed, encFailedAddr, attempts := false, NO_ADDR, [];
    }

    // ---- NimBLE stub -------------------------------------------------------------------------

    method GapConnect(a: Addr, ok: bool) returns (connected: bool)
      requires Valid()
      modifies `radio
      ensures Valid() && (State(), connected) == Supervision.GapConnect(old(State()), a, ok)
    {
      connected := radio.Idle? && a !in links.Values && ok;
      if connected {
        radio := Connecting(a, false);
      }
    }

    method GapScan(discovery: bool)
      requires Valid()
      modifies `radio
      ensures Valid() && State() == Supervision.GapScan(old(State()), discovery)
    {
      if radio.Idle? {
        radio := Scanning(discovery);
      }
    }

    method GapScanCancel()
      requires Valid()
      modifies `radio
      ensures Valid() && State() == Supervision.GapScanCancel(old(State()))
    {
      if radio.Scanning? {
        radio := Idle;
      }
    }

    // ---- ble_scan.c --------------------------------------------------------------------------

    /** start_scan_if_needed. */
    method StartScanIfNeeded()
      requires Valid()
      modifies `radio
      ensures Valid() && State() == Supervision.StartScanIfNeeded(old(State()))
    {
      var needed := mgr.HasDisconnectedCameras();
      if !needed {
        return;
      }
      GapScan(false);
    }

    /** start_discovery_cb. */
    method StartDiscovery()
      requires Valid()
      modifies `radio
      ensures Valid() && State() == QuietStep(old(State()), DiscoveryRequest)
    {
      GapScanCancel();
      GapScan(true);
    }

    /** ble_core_stop_discovery. */
    method StopDiscovery()
      requires Valid()
      modifies `radio
      ensures Valid() && State() == QuietStep(old(State()), Event.StopDiscovery)
    {
      GapScanCancel();
      StartScanIfNeeded();
    }

    /** connect_by_addr_cb. */
    method ConnectByAddr(a: Addr, ok: bool)
      requires Valid()
      modifies `radio, `connecting
      ensures Valid() && State() == OnPairRequest(old(State()), a, ok)
    {
      if connecting {
        return;
      }
      GapScanCancel();
      connecting := true;
      assert State() == Supervision.GapScanCancel(old(State())).(connecting := true);
      var connected := GapConnect(a, ok);
      if !connected {
        connecting := false;
        StartScanIfNeeded();
      }
    }

    /** scan_event_cb for an advertisement that parses. */
    method OnAdvertisement(a: Addr, ok: bool)
      requires Valid()
      modifies `radio, `connecting
      ensures Valid() && State() == Supervision.OnAdvertisement(old(State()), a, ok)
    {
      var slot := mgr.FindByAddr(a);
      if slot >= 0 && !connecting && a !in links.Values {
        ConnectAdvertised(a, ok);
      }
    }

    method ConnectAdvertised(a: Addr, ok: bool)
      requires Valid()
      modifies `radio, `connecting
      ensures Valid() && State() == Supervision.ConnectAdvertised(old(State()), a, ok)
    {
      connecting := true;
      GapScanCancel();
      assert State() == Supervision.GapScanCancel(old(State()).(connecting := true));
      var connected := GapConnect(a, ok);
      if !connected {
        connecting := false;
        GapScan(false);
      }
    }

    // ---- ble_connect.c -----------------------------------------------------------------------

    /** reconnect_next. */
    method ReconnectNext(luck: seq<bool>)
      requires Valid()
      modifies `radio, `pendingIdx, `attempts
      ensures Valid() && State() == Supervision.ReconnectNext(old(State()), luck)
      decreases pendingCount - pendingIdx
    {
      if pendingIdx >= pendingCount {
        StartScanIfNeeded();
        return;
      }
      var connected := TryNext(luck);
      if !connected {
        ReconnectNext(luck);
      }
    }

    /** The next entry: passed over if it has a link, otherwise asked for. */
    method TryNext(luck: seq<bool>) returns (connected: bool)
      requires Valid() && pendingIdx < pendingCount
      modifies `radio, `pendingIdx, `attempts
      ensures Valid() && (State(), connected) == ChainTurn(old(State()), luck)
    {
      var n := pendingIdx;
      var a := pendingReconnect[n];
      pendingIdx := pendingIdx + 1;
      if a in links.Values {
        return false;
      }
      attempts := attempts + [a];
      connected := GapConnect(a, Luck(luck, n));
    }

    /** BLE_GAP_EVENT_CONNECT with status 0, then the common tail. */
    method OnConnectOk(h: nat, luck: seq<bool>)
      requires Valid() && Enabled(State(), ConnectOk(h, luck))
      modifies this, mgr, mgr.slots, mgr.nvs, mgr.can
      ensures Valid() && State() == Step(old(State()), ConnectOk(h, luck))
    {
      ReportLink(h, radio.peer);
      connecting := false;
      ReconnectNext(luck);
    }

    /** The new link, and on_connected above. */
    method ReportLink(h: nat, a: Addr)
      requires Valid() && Lifecycle.Enabled(State().world, Lifecycle.Link(h, a))
      modifies `radio, `links, mgr.slots, mgr`traces, mgr.can
      ensures Valid() && State() == Tell(old(State()), Lifecycle.Link(h, a)).(radio := Idle)
    {
      links := links[h := a];
      radio := Idle;
      mgr.OnConnectedCb(h, a);
    }

    /** BLE_GAP_EVENT_CONNECT with an error status. */
    method OnConnectFailed(luck: seq<bool>)
      requires Valid() && Enabled(State(), ConnectFailed(luck))
      modifies `radio, `connecting, `pendingIdx, `attempts
      ensures Valid() && State() == Step(old(State()), ConnectFailed(luck))
    {
      radio := Idle;
      connecting := false;
      ReconnectNext(luck);
    }

    /** BLE_GAP_EVENT_ENC_CHANGE with status 0, up to start_gatt_discovery. */
    method OnEncrypted(h: nat)
      requires Valid() && h in links
      modifies this, mgr, mgr.slots, mgr.nvs, mgr.can
      ensures Valid() && State() == Step(old(State()), Encrypted(h))
    {
      mgr.OnEncryptedCb(h, links[h]);
    }

    /** BLE_GAP_EVENT_ENC_CHANGE with an error status. */
    method OnEncryptionFailed(h: nat)
      requires Valid() && h in links
      modifies `encFailed, `encFailedAddr
      ensures Valid() && State() == QuietStep(old(State()), EncryptionFailed(h))
    {
      encFailedAddr := links[h];
      encFailed := true;
    }

    /** schedule_backoff_reconnect. */
    method ScheduleBackoffReconnect(a: Addr)
      modifies `backoffAddr, `backoffPending, `timerArmed
      ensures backoffAddr == a && backoffPending && timerArmed
    {
      backoffAddr := a;
      backoffPending := true;
      timerArmed := true;
    }

    /** BLE_GAP_EVENT_DISCONNECT. */
    method OnDisconnect(h: nat, ok: bool)
      requires Valid() && h in links && h != HANDLE_NONE
      modifies this, mgr, mgr.slots, mgr.nvs, mgr.can
      ensures Valid() && State() == Step(old(State()), Disconnect(h, ok))
    {
      var a := links[h];
      ReportUnlink(h);
      AfterDisconnect(a, ok);
    }

    /** The link is gone, and on_disconnected above. */
    method ReportUnlink(h: nat)
      requires Valid() && h in links && h != HANDLE_NONE
      modifies `links, mgr.slots, mgr`traces, mgr.can
      ensures Valid() && State() == Tell(old(State()), Lifecycle.Unlink(h))
    {
      links := links - {h};
      mgr.OnDisconnectedCb(h);
    }

    /** The reconnect part of the disconnect handler. */
    method AfterDisconnect(a: Addr, ok: bool)
      requires Valid()
      modifies `radio, `connecting, `encFailed, `backoffAddr, `backoffPending, `timerArmed
      ensures Valid() && State() == OnDisconnectEvent(old(State()), a, ok)
    {
      connecting := false;
      var slot := mgr.FindByAddr(a);
      if slot < 0 {
        StartScanIfNeeded();
      } else {
        GapScanCancel();
        Reconnect(a, ok);
      }
    }

    /** The backoff path after a failed encryption of the same peer, the immediate path otherwise. */
    method Reconnect(a: Addr, ok: bool)
      requires Valid()
      modifies `radio, `encFailed, `backoffAddr, `backoffPending, `timerArmed
      ensures Valid() && State() == BackoffOrConnect(old(State()), a, ok)
    {
      if encFailed && encFailedAddr == a {
        encFailed := false;
        ScheduleBackoffReconnect(a);
      } else {
        ConnectOrScan(a, ok);
      }
    }

    /** ble_gap_connect, or start_scan when it is refused. */
    method ConnectOrScan(a: Addr, ok: bool)
      requires Valid()
      modifies `radio
      ensures Valid() && State() == Supervision.ConnectOrScan(old(State()), a, ok)
    {
      var connected := GapConnect(a, ok);
      if !connected {
        GapScan(false);
      }
    }

    /** reconnect_timer_cb: post the event to the host task. */
    method OnTimer()
      requires Valid() && timerArmed
      modifies `timerArmed, `eventQueued
      ensures Valid() && State() == QuietStep(old(State()), TimerFires)
    {
      timerArmed := false;
      eventQueued := true;
    }

    /** reconnect_event_cb, dequeued. */
    method OnBackoffEvent(ok: bool)
      requires Valid() && eventQueued
      modifies `radio, `eventQueued, `backoffPending
      ensures Valid() && State() == QuietStep(old(State()), BackoffElapsed(ok))
    {
      eventQueued := false;
      if !backoffPending {
        return;
      }
      backoffPending := false;
      ConnectOrScan(backoffAddr, ok);
    }

    // ---- ble_init.c --------------------------------------------------------------------------

    /** collect_bonded_peers_cb. */
    method CollectBondedPeer(a: Addr)
      requires Valid()
      modifies pendingReconnect, `pendingCount
      ensures Valid()
      ensures pendingReconnect[..pendingCount] == Collect(old(pendingReconnect[..pendingCount]), a)
    {
      if pendingCount >= MAX_BONDS {
        return;
      }
      var i := 0;
      while i < pendingCount
        invariant 0 <= i <= pendingCount
        invariant forall k | 0 <= k < i :: pendingReconnect[k] != a
      {
        if pendingReconnect[i] == a {
          assert pendingReconnect[..pendingCount][i] == a;
          return;
        }
        i := i + 1;
      }
      pendingReconnect[pendingCount] := a;
      pendingCount := pendingCount + 1;
    }

    /** on_sync. */
    method Sync(stored: seq<Addr>, luck: seq<bool>)
      requires Valid()
      modifies this, pendingReconnect
      ensures Valid() && State() == OnSync(old(State()), stored, luck)
    {
      pendingCount := 0;
      pendingIdx := 0;
      attempts := [];
      CollectBondedPeers(stored);
      if pendingCount > 0 {
        ReconnectNext(luck);
      }
    }

    /** ble_store_iterate over the peer-security store. */
    method CollectBondedPeers(stored: seq<Addr>)
      requires Valid() && pendingCount == 0
      modifies pendingReconnect, `pendingCount
      ensures Valid() && pendingReconnect[..pendingCount] == CollectAll(stored)
    {
      for i := 0 to |stored|
        invariant Valid() && pendingReconnect[..pendingCount] == CollectAll(stored[..i])
      {
        assert stored[..i + 1][..i] == stored[..i];
        CollectBondedPeer(stored[i]);
      }
      assert stored[..|stored|] == stored;
    }

    // ---- Whole programs ----------------------------------------------------------------------

    /** The end of a discovery scan. */
    method OnScanComplete()
      requires Valid() && radio.Scanning? && radio.discovery
      modifies `radio
      ensures Valid() && State() == QuietStep(old(State()), ScanComplete)
    {
      radio := Idle;
      StartScanIfNeeded();
    }

    /** remove_bond_cb, up to the bond store: cancel a pending connect. */
    method CancelConnect()
      requires Valid()
      modifies `radio
      ensures Valid() && State() == GapConnCancel(old(State()))
    {
      if radio.Connecting? {
        radio := radio.(cancelled := true);
      }
    }

    /** Events that concern ble_core alone. */
    method HandleQuiet(e: Supervision.Event)
      requires Valid() && IsQuiet(e) && Enabled(State(), e)
      modifies this
      ensures Valid() && State() == QuietStep(old(State()), e)
    {
      match e {
        case EncryptionFailed(h) => OnEncryptionFailed(h);
        case ScanComplete => OnScanComplete();
        case Advertisement(a, ok) => OnAdvertisement(a, ok);
        case TimerFires => OnTimer();
        case BackoffElapsed(ok) => OnBackoffEvent(ok);
        case PairRequest(a, ok) => ConnectByAddr(a, ok);
        case DiscoveryRequest => StartDiscovery();
        case StopDiscovery => StopDiscovery();
        case RemoveBond(_) => CancelConnect();
      }
    }

    /** Events that change links or slots. */
    method HandleLoud(e: Supervision.Event)
      requires Valid() && !IsQuiet(e) && Enabled(State(), e) && ValidInput(Gap(e)) && HANDLE_NONE !in links
      modifies this, mgr, mgr.slots, mgr.nvs, mgr.can
      ensures Valid() && State() == Step(old(State()), e)
    {
      match e {
        case ConnectOk(h, luck) => OnConnectOk(h, luck);
        case ConnectFailed(luck) => OnConnectFailed(luck);
        case Encrypted(h) => OnEncrypted(h);
        case Disconnect(h, ok) => OnDisconnect(h, ok);
        case Local(e) => mgr.Handle(e);
      }
    }

    /** One input, whatever it is: the state moves as Supervision.dfy says, and what it guarantees is kept. */
    method Handle(x: Input)
      requires Valid() && Safe() && ValidInput(x) && Enabled(State(), EventOf(x))
      modifies this, mgr, mgr.slots, mgr.nvs, mgr.can
      ensures Valid() && Safe() && State() == Step(old(State()), EventOf(x))
    {
      Supervision.StepKeeps(State(), EventOf(x));
      match x {
        case Gap(e) =>
          if IsQuiet(e) {
            HandleQuiet(e);
          } else {
            HandleLoud(e);
          }
        case StatusNotification(h, data) => mgr.HandleStatusResponse(h, data);
      }
    }

    /** The firmware at work: over any inputs the handlers go through the run of Supervision.dfy, and at every
        point no remembered camera is abandoned and the slot table is in order. */
    method Work(xs: seq<Input>)
      requires Valid() && Safe() && (forall x | x in xs :: ValidInput(x)) && ValidRun(State(), EventsOf(xs))
      modifies this, mgr, mgr.slots, mgr.nvs, mgr.can
      ensures Valid() && Safe() && State() == After(old(State()), EventsOf(xs))
    {
      assert xs[0..] == xs;
      for k := 0 to |xs|
        invariant Valid() && Safe() && ValidRun(State(), EventsOf(xs[k..]))
        invariant After(State(), EventsOf(xs[k..])) == After(old(State()), EventsOf(xs))
      {
        RunFirst(State(), xs, k);
        Handle(xs[k]);
      }
      assert xs[|xs|..] == [];
    }
  }

  /** Power-on to on_sync, from what NVS and the bond store hold: the guarantee begins exactly if there is a bond or
      no camera to look for. */
  method Boot(nvs: seq<Option<Record>>, stored: seq<Addr>, luck: seq<bool>) returns (core: Core)
    requires Lifecycle.ValidNvs(nvs)
    ensures core.Valid() && Supervision.Inv(core.State())
    ensures core.Safe() <==> stored != [] || Remembered(Init(nvs).cams) == 0
    ensures fresh(core) && fresh(core.mgr) && fresh(core.mgr.slots) && fresh(core.mgr.nvs) && fresh(core.mgr.can)
  {
    var mgr := new SlotTable(nvs);
    core := new Core(mgr);
    SyncStartsLooking(core.State(), stored, luck);
    core.Sync(stored, luck);
  }
}
