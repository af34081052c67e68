/** Connection supervision (ble_connect.c, ble_scan.c, ble_init.c) over a stub of the NimBLE GAP: boot chain,
    reconnect, backoff, background scan, discovery and pairing share one radio. */
module Supervision {
  import opened Base
  import opened Cameras
  import opened StartGuard
  import Lifecycle

  // ---- The GAP stub --------------------------------------------------------------------------

  /** The radio does one thing at a time.  A discovery scan ends by itself; a cancelled connect still ends in a
      CONNECT event. */
  datatype Radio = Idle | Scanning(discovery: bool) | Connecting(peer: Addr, cancelled: bool)

  /** State of ble_core, the radio under it, and the manager with its links above it. */
  datatype Ble = Ble(
    radio: Radio,
    world: Lifecycle.World,
    connecting: bool,                                  // s_connecting
    pending: seq<Addr>, idx: nat,                      // s_pending_reconnect, s_pending_idx
    backoffAddr: Addr, backoffPending: bool,           // s_backoff_addr, s_backoff_pending
    timerArmed: bool, eventQueued: bool,               // the backoff timer and its host event
    encFailed: bool, encFailedAddr: Addr,              // s_enc_failed, s_enc_failed_addr
    attempts: seq<Addr>)                               // connects the boot chain asked for, in order

  predicate IsLinked(b: Ble, a: Addr) { a in b.world.links.Values }

  /** ble_gap_connect: refused unless the radio is idle and the peer not linked; `ok` is the stack's own word. */
  function GapConnect(b: Ble, a: Addr, ok: bool): (Ble, bool) {
    if b.radio.Idle? && !IsLinked(b, a) && ok then (b.(radio := Connecting(a, false)), true) else (b, false)
  }

  /** ble_gap_disc: starts from idle, refused otherwise. */
  function GapScan(b: Ble, discovery: bool): Ble {
    if b.radio.Idle? then b.(radio := Scanning(discovery)) else b
  }

  /** ble_gap_disc_cancel. */
  function GapScanCancel(b: Ble): Ble { if b.radio.Scanning? then b.(radio := Idle) else b }

  /** ble_gap_conn_cancel: the attempt ends later, with a CONNECT event. */
  function GapConnCancel(b: Ble): Ble {
    if b.radio.Connecting? then b.(radio := b.radio.(cancelled := true)) else b
  }

  // ---- ble_core ------------------------------------------------------------------------------

  /** Nothing outside the radio and the reconnect flags differs: same links and slots, same boot chain. */
  predicate SameBeyondRadio(b: Ble, c: Ble) {
    c.world == b.world && c.pending == b.pending && c.idx == b.idx && c.attempts == b.attempts
  }

  predicate SomeDisconnected(b: Ble) { HasDisconnected(b.world.mgr.cams) }

  predicate IsKnown(b: Ble, a: Addr) { FindByAddr(b.world.mgr.cams, a) >= 0 }

  function StartScan(b: Ble): Ble { GapScan(b, false) }

  function StartScanIfNeeded(b: Ble): (r: Ble)
    ensures SameBeyondRadio(b, r)
  {
    if SomeDisconnected(b) then StartScan(b) else b
  }

  /** Verdict of the stack on the n-th entry of the boot chain. */
  function Luck(luck: seq<bool>, n: nat): bool { n < |luck| && luck[n] }

  /** The next entry of the boot chain: attempted unless linked; true when a connection is pending after it. */
  function ChainTurn(b: Ble, luck: seq<bool>): (r: (Ble, bool))
    requires b.idx < |b.pending|
    ensures r.0.world == b.world && r.0.pending == b.pending && r.0.idx == b.idx + 1
  {
    var a := b.pending[b.idx];
    var b1 := b.(idx := b.idx + 1);
    if IsLinked(b1, a) then (b1, false)
    else GapConnect(b1.(attempts := b1.attempts + [a]), a, Luck(luck, b.idx))
  }

  /** reconnect_next. */
  function ReconnectNext(b: Ble, luck: seq<bool>): (r: Ble)
    ensures r.world == b.world
    decreases |b.pending| - b.idx
  {
    if b.idx >= |b.pending| then StartScanIfNeeded(b)
    else
      var (b1, connected) := ChainTurn(b, luck);
      if connected then b1 else ReconnectNext(b1, luck)
  }

  /** Collect one bonded peer (collect_bonded_peers_cb). */
  function Collect(pending: seq<Addr>, a: Addr): seq<Addr> {
    if |pending| >= MAX_BONDS || a in pending then pending else pending + [a]
  }

  function CollectAll(stored: seq<Addr>): seq<Addr> {
    if stored == [] then [] else Collect(CollectAll(stored[..|stored| - 1]), stored[|stored| - 1])
  }

  /** on_sync, with the bond store iterated in the order `stored`. */
  function OnSync(b: Ble, stored: seq<Addr>, luck: seq<bool>): (r: Ble)
    ensures r.world == b.world
  {
    var b1 := b.(pending := CollectAll(stored), idx := 0, attempts := []);
    if |b1.pending| > 0 then ReconnectNext(b1, luck) else b1
  }

  datatype Event =
    | ConnectOk(h: nat, luck: seq<bool>)
    | ConnectFailed(luck: seq<bool>)
    | Encrypted(h: nat)
    | EncryptionFailed(h: nat)
    | Disconnect(h: nat, ok: bool)
    | ScanComplete
    | Advertisement(a: Addr, ok: bool)
    | TimerFires
    | BackoffElapsed(ok: bool)
    | PairRequest(a: Addr, ok: bool)
    | DiscoveryRequest
    | StopDiscovery
    | RemoveBond(a: Addr)
    | Local(e: Lifecycle.Event)

  /** Events of the manager that are not link events of their own. */
  predicate IsLocal(e: Lifecycle.Event) { !e.Link? && !e.Encrypted? && !e.Unlink? }

  predicate Enabled(b: Ble, e: Event) {
    match e
    case ConnectOk(h, _) =>
      b.radio.Connecting? && !IsLinked(b, b.radio.peer) && h !in b.world.links && h != HANDLE_NONE
    case ConnectFailed(_) => b.radio.Connecting?
    case Encrypted(h) => h in b.world.links
    case EncryptionFailed(h) => h in b.world.links
    case Disconnect(h, _) => h in b.world.links
    case ScanComplete => b.radio.Scanning? && b.radio.discovery
    case Advertisement(_, _) => b.radio.Scanning?
    case TimerFires => b.timerArmed
    case BackoffElapsed(_) => b.eventQueued
    case Local(e) => IsLocal(e) && Lifecycle.Enabled(b.world, e)
    case _ => true
  }

  function Tell(b: Ble, e: Lifecycle.Event): (r: Ble)
    requires Sized(b.world.mgr) && Lifecycle.Enabled(b.world, e)
    ensures Sized(r.world.mgr)
  {
    b.(world := Lifecycle.Step(b.world, e))
  }

  /** BLE_GAP_EVENT_CONNECT: report a new link, then advance the boot chain. */
  function OnConnectEvent(b: Ble, luck: seq<bool>): (r: Ble)
    ensures r.world == b.world
  {
    ReconnectNext(b.(connecting := false), luck)
  }

  /** The reconnect attempt of the disconnect and backoff handlers: scan if it is refused. */
  function ConnectOrScan(b: Ble, a: Addr, ok: bool): (r: Ble)
    ensures SameBeyondRadio(b, r)
  {
    var (b1, connected) := GapConnect(b, a, ok);
    if connected then b1 else StartScan(b1)
  }

  /** BLE_GAP_EVENT_DISCONNECT, after the layers above were told. */
  function OnDisconnectEvent(b: Ble, a: Addr, ok: bool): (r: Ble)
    ensures SameBeyondRadio(b, r)
  {
    var b1 := b.(connecting := false);
    if !IsKnown(b1, a) then StartScanIfNeeded(b1) else BackoffOrConnect(GapScanCancel(b1), a, ok)
  }

  /** After a failed encryption of the same peer, schedule the reconnect; otherwise reconnect now. */
  function BackoffOrConnect(b: Ble, a: Addr, ok: bool): (r: Ble)
    ensures SameBeyondRadio(b, r)
  {
    if b.encFailed && b.encFailedAddr == a then
      b.(encFailed := false, backoffAddr := a, backoffPending := true, timerArmed := true)
    else ConnectOrScan(b, a, ok)
  }

  /** reconnect_event_cb. */
  function OnBackoffElapsed(b: Ble, ok: bool): (r: Ble)
    ensures SameBeyondRadio(b, r)
  {
    if !b.backoffPending then b
    else ConnectOrScan(b.(backoffPending := false), b.backoffAddr, ok)
  }

  /** scan_event_cb for an advertisement that parses. */
  function OnAdvertisement(b: Ble, a: Addr, ok: bool): (r: Ble)
    ensures SameBeyondRadio(b, r)
  {
    if !IsKnown(b, a) || b.connecting || IsLinked(b, a) then b else ConnectAdvertised(b, a, ok)
  }

  function ConnectAdvertised(b: Ble, a: Addr, ok: bool): (r: Ble)
    ensures SameBeyondRadio(b, r)
  {
    var (b1, connected) := GapConnect(GapScanCancel(b.(connecting := true)), a, ok);
    if connected then b1 else StartScan(b1.(connecting := false))
  }

  /** connect_by_addr_cb. */
  function OnPairRequest(b: Ble, a: Addr, ok: bool): (r: Ble)
    ensures SameBeyondRadio(b, r)
  {
    if b.connecting then b
    else
      var (b1, connected) := GapConnect(GapScanCancel(b).(connecting := true), a, ok);
      if connected then b1 else StartScanIfNeeded(b1.(connecting := false))
  }

  /** Events that reach ble_core only. */
  predicate IsQuiet(e: Event) {
    !e.ConnectOk? && !e.ConnectFailed? && !e.Encrypted? && !e.Disconnect? && !e.Local?
  }

  function QuietStep(b: Ble, e: Event): (r: Ble)
    requires IsQuiet(e) && Enabled(b, e)
    ensures SameBeyondRadio(b, r)
  {
    match e
    case EncryptionFailed(h) => b.(encFailed := true, encFailedAddr := b.world.links[h])
    case ScanComplete => StartScanIfNeeded(b.(radio := Idle))
    case Advertisement(a, ok) => OnAdvertisement(b, a, ok)
    case TimerFires => b.(timerArmed := false, eventQueued := true)
    case BackoffElapsed(ok) => OnBackoffElapsed(b.(eventQueued := false), ok)
    case PairRequest(a, ok) => OnPairRequest(b, a, ok)
    case DiscoveryRequest => GapScan(GapScanCancel(b), true)
    case StopDiscovery => StartScanIfNeeded(GapScanCancel(b))
    case RemoveBond(a) => GapConnCancel(b)
  }

  function Step(b: Ble, e: Event): (r: Ble)
    requires Sized(b.world.mgr) && Enabled(b, e)
    ensures Sized(r.world.mgr)
  {
    if IsQuiet(e) then QuietStep(b, e)
    else match e
      case ConnectOk(h, luck) =>
        OnConnectEvent(Tell(b, Lifecycle.Link(h, b.radio.peer)).(radio := Idle), luck)
      case ConnectFailed(luck) => OnConnectEvent(b.(radio := Idle), luck)
      case Encrypted(h) => Tell(b, Lifecycle.Encrypted(h))
      case Disconnect(h, ok) => OnDisconnectEvent(Tell(b, Lifecycle.Unlink(h)), b.world.links[h], ok)
      case Local(e) => Tell(b, e)
  }

  // ---- How the boot chain moves ---------------------------------------------------------------

  /** The chain after passing its next entry, which it attempts unless linked. */
  ghost function Passed(b: Ble): Ble
    requires b.idx < |b.pending|
  {
    if IsLinked(b, b.pending[b.idx]) then b.(idx := b.idx + 1)
    else b.(idx := b.idx + 1, attempts := b.attempts + [b.pending[b.idx]])
  }

  /** The chain passes one entry and goes on, or rests there with a connection pending. */
  lemma ChainPasses(b: Ble, luck: seq<bool>)
    requires b.idx < |b.pending|
    ensures var p := Passed(b); var a := b.pending[b.idx]; var r := ReconnectNext(b, luck);
      || r == ReconnectNext(p, luck)
      || (b.radio.Idle? && !IsLinked(b, a) && r == p.(radio := Connecting(a, false)))
  {
  }

  /** The peers among s[from..to] that hold no link, in order. */
  ghost function Unlinked(s: seq<Addr>, from: nat, to: nat, linked: set<Addr>): seq<Addr>
    requires from <= to <= |s|
    decreases |s| - from
  {
    if from == to then []
    else (if s[from] in linked then [] else [s[from]]) + Unlinked(s, from + 1, to, linked)
  }

  /** Past entry `from` of the chain: connecting to the entry just passed, which is not linked, or the chain is
      exhausted and the radio scans exactly if a camera is missing. */
  predicate ConnectsOrScans(r: Ble, from: nat) {
    if r.radio.Connecting? then
      from < r.idx <= |r.pending| && r.radio.peer == r.pending[r.idx - 1] && !IsLinked(r, r.radio.peer)
    else r.idx == |r.pending| && r.radio == if SomeDisconnected(r) then Scanning(false) else Idle
  }

  /** The attempts made when the chain, from `b` on, has passed the entries before `to`. */
  ghost function AttemptsBefore(b: Ble, to: nat): seq<Addr>
    requires b.idx <= to <= |b.pending|
  {
    b.attempts + Unlinked(b.pending, b.idx, to, b.world.links.Values)
  }

  /** `r` is the chain further on than `b`: it attempted what it passed and found unlinked, it rests as it should if
      it began with an idle radio, and nothing else differs. */
  ghost predicate WentOn(b: Ble, r: Ble) {
    && b.idx <= r.idx <= |b.pending|
    && r == b.(idx := r.idx, attempts := r.attempts, radio := r.radio)
    && r.attempts == AttemptsBefore(b, r.idx)
    && (b.radio.Idle? ==> ConnectsOrScans(r, b.idx))
  }

  lemma ExhaustedWentOn(b: Ble)
    requires b.idx == |b.pending|
    ensures WentOn(b, StartScanIfNeeded(b))
  {
  }

  lemma PassedAttempts(b: Ble, to: nat)
    requires b.idx < to <= |b.pending|
    ensures AttemptsBefore(Passed(b), to) == AttemptsBefore(b, to)
  {
    var linked := b.world.links.Values;
    var now := if b.pending[b.idx] in linked then [] else [b.pending[b.idx]];
    var later := Unlinked(b.pending, b.idx + 1, to, linked);
    assert Passed(b).attempts == b.attempts + now;
    assert (b.attempts + now) + later == b.attempts + (now + later);
  }

  lemma ConnectingWentOn(b: Ble)
    requires b.idx < |b.pending| && !IsLinked(b, b.pending[b.idx])
    ensures WentOn(b, Passed(b).(radio := Connecting(b.pending[b.idx], false)))
  {
    PassedAttempts(b, b.idx + 1);
  }

  lemma PassedWentOn(b: Ble, r: Ble)
    requires b.idx < |b.pending| && WentOn(Passed(b), r)
    ensures WentOn(b, r)
  {
    assert r == b.(idx := r.idx, attempts := r.attempts, radio := r.radio);
    PassedAttempts(b, r.idx);
    RestsEarlier(r, b.idx);
  }

  lemma RestsEarlier(r: Ble, from: nat)
    ensures ConnectsOrScans(r, from + 1) ==> ConnectsOrScans(r, from)
  {
  }

  /** reconnect_next, whatever the stack answers: it skips linked peers and nobody else, in order, and from an idle
      radio it ends connecting, or with the chain exhausted and scanning if need be. */
  lemma {:induction false} ChainGoesOn(b: Ble, luck: seq<bool>)
    requires b.idx <= |b.pending|
    ensures WentOn(b, ReconnectNext(b, luck))
    decreases |b.pending| - b.idx
  {
    if b.idx == |b.pending| {
      ExhaustedWentOn(b);
    } else {
      ChainPasses(b, luck);
      if ReconnectNext(b, luck) == ReconnectNext(Passed(b), luck) {
        ChainGoesOn(Passed(b), luck);
        PassedWentOn(b, ReconnectNext(b, luck));
      } else {
        ConnectingWentOn(b);
      }
    }
  }

  // ---- Nobody is abandoned -------------------------------------------------------------------

  /** Someone is looking: the radio is busy or a backoff reconnect is on its way. */
  predicate Looking(b: Ble) { !b.radio.Idle? || b.backoffPending }

  /** Whenever a remembered camera has no connection, someone is looking. */
  predicate NoneAbandoned(b: Ble) { SomeDisconnected(b) ==> Looking(b) }

  /** What the handlers keep besides: the table invariant of the layer above; a pending connect is to an
      unlinked peer; s_connecting is only up while the radio connects, so no scan result is ignored because of
      it; a pending backoff has its timer or its event coming. */
  ghost predicate Inv(b: Ble) {
    && Lifecycle.Inv(b.world)
    && (b.radio.Connecting? ==> !IsLinked(b, b.radio.peer))
    && (b.connecting ==> b.radio.Connecting?)
    && (b.backoffPending ==> b.timerArmed || b.eventQueued)
    && b.idx <= |b.pending|
  }

  /** reconnect_next from an idle radio keeps the invariant, and nobody is abandoned after it. */
  lemma ReconnectNextKeeps(b: Ble, luck: seq<bool>)
    requires Inv(b) && b.radio.Idle?
    ensures Inv(ReconnectNext(b, luck)) && NoneAbandoned(ReconnectNext(b, luck))
  {
    ChainGoesOn(b, luck);
  }

  /** Unlinking h takes its peer off the air and nobody else. */
  lemma UnlinkGone(b: Ble, h: nat)
    requires Inv(b) && h in b.world.links
    ensures var b' := Tell(b, Lifecycle.Unlink(h));
      && Lifecycle.Inv(b'.world) && !IsLinked(b', b.world.links[h])
      && forall a :: IsLinked(b', a) ==> IsLinked(b, a)
  {
    Lifecycle.StepKeeps(b.world, Lifecycle.Unlink(h));
  }

  /** Events above ble_core never turn a connected camera into a disconnected one. */
  lemma LocalNeverDisconnects(w: Lifecycle.World, e: Lifecycle.Event)
    requires Lifecycle.Inv(w) && Lifecycle.Enabled(w, e) && (IsLocal(e) || e.Encrypted?)
    ensures HasDisconnected(Lifecycle.Step(w, e).mgr.cams) ==> HasDisconnected(w.mgr.cams)
  {
    var w' := Lifecycle.Step(w, e);
    HasDisconnectedMeaning(w.mgr.cams);
    HasDisconnectedMeaning(w'.mgr.cams);
    if HasDisconnected(w'.mgr.cams) {
      var i :| 0 <= i < |w'.mgr.cams| && w'.mgr.cams[i].slot.configured && w'.mgr.cams[i].slot.handle == HANDLE_NONE;
      SlotWasDisconnected(w, e, i);
    }
  }

  lemma SlotWasDisconnected(w: Lifecycle.World, e: Lifecycle.Event, i: nat)
    requires Lifecycle.Inv(w) && Lifecycle.Enabled(w, e) && (IsLocal(e) || e.Encrypted?) && i < MAX_BONDS
    requires var s := Lifecycle.Step(w, e).mgr.cams[i].slot; s.configured && s.handle == HANDLE_NONE
    ensures w.mgr.cams[i].slot.configured && w.mgr.cams[i].slot.handle == HANDLE_NONE
  {
    if e.Encrypted? {
      EncryptionConnects(w, e.h, i);
    } else if e.TickTimer? || e.LoggingChanged? || e.ShutterAllCmd? {
      AllStayInPlace(w, e, i);
    }
  }

  /** Encryption touches one slot, which is connected after it. */
  lemma EncryptionConnects(w: Lifecycle.World, h: nat, i: nat)
    requires Lifecycle.Inv(w) && h in w.links && i < MAX_BONDS
    ensures var s := Lifecycle.Step(w, Lifecycle.Encrypted(h)).mgr.cams[i].slot;
      s == w.mgr.cams[i].slot || s.handle == h
  {
    var a := w.links[h];
    var known, free := FindByAddr(w.mgr.cams, a), FindFree(w.mgr.cams);
    if known >= 0 {
      assert Lifecycle.Consistent(w.mgr.cams[known].slot, w.links);
    }
  }

  /** Events for all cameras leave every slot where it is. */
  lemma AllStayInPlace(w: Lifecycle.World, e: Lifecycle.Event, i: nat)
    requires Lifecycle.Inv(w) && i < MAX_BONDS && (e.TickTimer? || e.LoggingChanged? || e.ShutterAllCmd?)
    ensures Lifecycle.SamePlace(w.mgr.cams[i].slot, Lifecycle.Step(w, e).mgr.cams[i].slot)
  {
    assert Guarded(w.mgr.cams[i]);
    if e.TickTimer? {
      Lifecycle.StartOneKeeps(w.mgr.cams[i], e.accept(i));
    } else if e.LoggingChanged? {
      Lifecycle.ShutterAllEach(w.mgr, e.state.LoggingOn?, e.accept, i);
    } else {
      Lifecycle.ShutterAllEach(w.mgr, e.on, e.accept, i);
    }
  }

  lemma DisconnectKeeps(b: Ble, h: nat, ok: bool)
    requires Inv(b) && Enabled(b, Disconnect(h, ok))
    ensures Inv(Step(b, Disconnect(h, ok))) && NoneAbandoned(Step(b, Disconnect(h, ok)))
  {
    UnlinkGone(b, h);
    DisconnectEventKeeps(Tell(b, Lifecycle.Unlink(h)), b.world.links[h], ok);
  }

  lemma DisconnectEventKeeps(b: Ble, a: Addr, ok: bool)
    requires Inv(b) && !IsLinked(b, a)
    ensures Inv(OnDisconnectEvent(b, a, ok)) && NoneAbandoned(OnDisconnectEvent(b, a, ok))
  {
    var b1 := b.(connecting := false);
    assert Inv(b1);
    if !IsKnown(b1, a) {
      ScanIfNeededKeeps(b1);
    } else {
      var b2 := GapScanCancel(b1);
      assert Inv(b2);
      if b.encFailed && b.encFailedAddr == a {
      } else {
        ConnectOrScanKeeps(b2, a, ok);
      }
    }
  }

  lemma ScanIfNeededKeeps(b: Ble)
    requires Inv(b)
    ensures Inv(StartScanIfNeeded(b)) && NoneAbandoned(StartScanIfNeeded(b))
  {
  }

  lemma ConnectOrScanKeeps(b: Ble, a: Addr, ok: bool)
    requires Inv(b) && !IsLinked(b, a)
    ensures Inv(ConnectOrScan(b, a, ok)) && NoneAbandoned(ConnectOrScan(b, a, ok))
  {
  }

  lemma ConnectKeeps(b: Ble, e: Event)
    requires Inv(b) && Enabled(b, e) && (e.ConnectOk? || e.ConnectFailed?)
    ensures Inv(Step(b, e)) && NoneAbandoned(Step(b, e))
  {
    if e.ConnectOk? {
      Lifecycle.StepKeeps(b.world, Lifecycle.Link(e.h, b.radio.peer));
      var b1 := Tell(b, Lifecycle.Link(e.h, b.radio.peer)).(radio := Idle, connecting := false);
      ReconnectNextKeeps(b1, e.luck);
    } else {
      ReconnectNextKeeps(b.(radio := Idle, connecting := false), e.luck);
    }
  }

  /** Main result, one event: a remembered camera is never silently abandoned. */
  lemma StepKeeps(b: Ble, e: Event)
    requires Inv(b) && NoneAbandoned(b) && Enabled(b, e)
    ensures Inv(Step(b, e)) && NoneAbandoned(Step(b, e))
  {
    if e.ConnectOk? || e.ConnectFailed? {
      ConnectKeeps(b, e);
    } else if e.Disconnect? {
      DisconnectKeeps(b, e.h, e.ok);
    } else if e.Encrypted? {
      Lifecycle.StepKeeps(b.world, Lifecycle.Encrypted(e.h));
      LocalNeverDisconnects(b.world, Lifecycle.Encrypted(e.h));
    } else if e.Local? {
      Lifecycle.StepKeeps(b.world, e.e);
      LocalNeverDisconnects(b.world, e.e);
    } else {
      QuietKeeps(b, e);
    }
  }

  /** Events that leave the manager and the links alone. */
  lemma QuietKeeps(b: Ble, e: Event)
    requires Inv(b) && NoneAbandoned(b) && IsQuiet(e) && Enabled(b, e)
    ensures Inv(QuietStep(b, e)) && NoneAbandoned(QuietStep(b, e))
  {
    if e.Advertisement? {
      AdvertisementKeeps(b, e.a, e.ok);
    } else if e.PairRequest? {
      PairRequestKeeps(b, e.a, e.ok);
    } else if e.BackoffElapsed? {
      BackoffKeeps(b.(eventQueued := false), e.ok);
    }
  }

  lemma AdvertisementKeeps(b: Ble, a: Addr, ok: bool)
    requires Inv(b) && NoneAbandoned(b) && b.radio.Scanning?
    ensures Inv(OnAdvertisement(b, a, ok)) && NoneAbandoned(OnAdvertisement(b, a, ok))
  {
  }

  lemma PairRequestKeeps(b: Ble, a: Addr, ok: bool)
    requires Inv(b) && NoneAbandoned(b)
    ensures Inv(OnPairRequest(b, a, ok)) && NoneAbandoned(OnPairRequest(b, a, ok))
  {
  }

  /** The event has been taken off the queue, so the timer no longer vouches for a pending backoff. */
  lemma BackoffKeeps(b: Ble, ok: bool)
    requires Inv(b.(eventQueued := true)) && NoneAbandoned(b)
    ensures Inv(OnBackoffElapsed(b, ok)) && NoneAbandoned(OnBackoffElapsed(b, ok))
  {
  }

  predicate ValidRun(b: Ble, run: seq<Event>)
    requires Sized(b.world.mgr)
    decreases |run|
  {
    run == [] || (Enabled(b, run[0]) && ValidRun(Step(b, run[0]), run[1..]))
  }

  /** At every point of a run nobody is abandoned. */
  ghost predicate NeverAbandons(b: Ble, run: seq<Event>)
    requires Sized(b.world.mgr) && ValidRun(b, run)
    decreases |run|
  {
    NoneAbandoned(b) && (run == [] || NeverAbandons(Step(b, run[0]), run[1..]))
  }

  /** ble_core when on_sync fires: radio idle, nothing linked, nothing scheduled. */
  ghost predicate AtSync(b: Ble) {
    && Inv(b) && b.radio.Idle? && b.world.links == map[] && !b.connecting && !b.backoffPending
  }

  /** Such is the state after every boot. */
  lemma BootIsAtSync(nvs: seq<Option<Record>>)
    requires Lifecycle.ValidNvs(nvs)
    ensures AtSync(Ble(Idle, Lifecycle.World(Init(nvs), map[]), false, [], 0, NO_ADDR, false, false, false, false,
                       NO_ADDR, []))
  {
    Lifecycle.BootInv(nvs);
  }

  /** Start of the guarantee: after on_sync someone is looking exactly when there was a bond to start the chain
      with or there is no camera to look for. */
  lemma SyncStartsLooking(b: Ble, stored: seq<Addr>, luck: seq<bool>)
    requires AtSync(b)
    ensures Inv(OnSync(b, stored, luck))
    ensures NoneAbandoned(OnSync(b, stored, luck)) <==> (stored != [] || Remembered(b.world.mgr.cams) == 0)
  {
    var b1 := b.(pending := CollectAll(stored), idx := 0, attempts := []);
    CollectedNonEmpty(stored);
    if stored != [] {
      ReconnectNextKeeps(b1, luck);
    } else {
      NoLinksNoConnected(b);
    }
  }

  lemma {:induction false} CollectedNonEmpty(stored: seq<Addr>)
    ensures CollectAll(stored) == [] <==> stored == []
  {
    if stored == [] {
    } else {
      CollectedNonEmpty(stored[..|stored| - 1]);
    }
  }

  lemma NoLinksNoConnected(b: Ble)
    requires Inv(b) && b.world.links == map[]
    ensures ConnectedCount(b.world.mgr.cams) == 0
  {
    forall i | 0 <= i < MAX_BONDS ensures b.world.mgr.cams[i].slot.handle == HANDLE_NONE {
      assert Lifecycle.Consistent(b.world.mgr.cams[i].slot, b.world.links);
    }
    NoneConnected(b.world.mgr.cams);
  }

  lemma {:induction false} NoneConnected(cams: seq<Camera>)
    requires forall i | 0 <= i < |cams| :: cams[i].slot.handle == HANDLE_NONE
    ensures ConnectedCount(cams) == 0
  {
    if cams == [] {
    } else {
      NoneConnected(cams[..|cams| - 1]);
    }
  }

  lemma {:induction false} RunKeeps(b: Ble, run: seq<Event>)
    requires Inv(b) && NoneAbandoned(b) && ValidRun(b, run)
    ensures NeverAbandons(b, run)
    decreases |run|
  {
    if run == [] {
    } else {
      StepKeeps(b, run[0]);
      RunKeeps(Step(b, run[0]), run[1..]);
    }
  }

  /** Main result, whole runs: over every run after on_sync, with every ble_gap_connect free to fail, the
      guarantee holds throughout exactly when the run began with a bond or with no remembered camera. */
  lemma NeverAbandonsIff(b: Ble, stored: seq<Addr>, luck: seq<bool>, run: seq<Event>)
    requires AtSync(b) && ValidRun(OnSync(b, stored, luck), run)
    ensures NeverAbandons(OnSync(b, stored, luck), run) <==> (stored != [] || Remembered(b.world.mgr.cams) == 0)
  {
    SyncStartsLooking(b, stored, luck);
    if stored != [] || Remembered(b.world.mgr.cams) == 0 {
      RunKeeps(OnSync(b, stored, luck), run);
    }
  }

  /** The exception, concretely: one camera in NVS, no bond in the store.  on_sync leaves the radio idle. */
  lemma NoBondNoSearch(rec: Record, luck: seq<bool>)
    requires rec.configured
    ensures var b := Ble(Idle, Lifecycle.World(Init([Some(rec), None, None, None]), map[]), false, [], 0, NO_ADDR, false,
                         false, false, false, NO_ADDR, []);
      AtSync(b) && SomeDisconnected(OnSync(b, [], luck)) && !Looking(OnSync(b, [], luck))
  {
    var nvs := [Some(rec), None, None, None];
    BootIsAtSync(nvs);
    var cams := Init(nvs).cams;
    HasDisconnectedMeaning(cams);
    assert cams[0].slot.configured && cams[0].slot.handle == HANDLE_NONE;
  }

  /** While the radio scans, an advertisement of a remembered, unconnected camera always turns into a connect:
      the scan is not wasted on a stale s_connecting flag. */
  lemma ScanFindsCamera(b: Ble, a: Addr, i: nat)
    requires Inv(b) && b.radio.Scanning? && i < MAX_BONDS
    requires HasAddr(b.world.mgr.cams[i].slot, a) && b.world.mgr.cams[i].slot.handle == HANDLE_NONE
    ensures Step(b, Advertisement(a, true)).radio == Connecting(a, false)
    ensures Step(b, Advertisement(a, false)).radio.Scanning?
  {
    assert Lifecycle.Consistent(b.world.mgr.cams[i].slot, b.world.links);
  }

  /** A CONNECT event. */
  predicate EndsAttempt(e: Event) { e.ConnectOk? || e.ConnectFailed? }

  function AttemptsEnded(run: seq<Event>): nat {
    if run == [] then 0 else (if EndsAttempt(run[0]) then 1 else 0) + AttemptsEnded(run[1..])
  }

  /** A connection attempt, to whomever, does not hold the radio: when it ends, well or badly, the boot chain goes on
      to its next peer, or it is exhausted and the radio scans exactly if a camera is missing. */
  lemma AttemptGivesWay(b: Ble, e: Event)
    requires Sized(b.world.mgr) && Enabled(b, e) && EndsAttempt(e) && b.idx <= |b.pending|
    ensures ConnectsOrScans(Step(b, e), b.idx) && Step(b, e).pending == b.pending
  {
    if e.ConnectOk? {
      ChainGoesOn(Tell(b, Lifecycle.Link(e.h, b.radio.peer)).(radio := Idle, connecting := false), e.luck);
    } else {
      ChainGoesOn(b.(radio := Idle, connecting := false), e.luck);
    }
  }

  lemma {:induction false} ChainAdvances(b: Ble, run: seq<Event>)
    requires Sized(b.world.mgr) && ValidRun(b, run) && b.idx <= |b.pending|
    ensures var r := After(b, run);
      r.pending == b.pending && r.idx <= |r.pending| && (r.idx == |r.pending| || r.idx >= b.idx + AttemptsEnded(run))
    decreases |run|
  {
    if run == [] {
    } else {
      if EndsAttempt(run[0]) {
        AttemptGivesWay(b, run[0]);
      } else {
        OnlyConnectMovesChain(b, run[0]);
      }
      ChainAdvances(Step(b, run[0]), run[1..]);
    }
  }

  /** Nobody waits for ever behind other peers: in any run, once as many attempts have ended as the boot chain had
      entries left, the end of every further attempt leaves the radio scanning exactly if a camera is missing. */
  lemma ScansAfterAttempts(b: Ble, run: seq<Event>, e: Event)
    requires Sized(b.world.mgr) && ValidRun(b, run) && b.idx <= |b.pending|
    requires AttemptsEnded(run) >= |b.pending| - b.idx && Enabled(After(b, run), e) && EndsAttempt(e)
    ensures var r := Step(After(b, run), e); r.radio == if SomeDisconnected(r) then Scanning(false) else Idle
  {
    ChainAdvances(b, run);
    AttemptGivesWay(After(b, run), e);
  }

  // ---- The boot chain ------------------------------------------------------------------------

  predicate NoDuplicates(s: seq<Addr>) { forall i, j | 0 <= i < j < |s| :: s[i] != s[j] }

  /** The pending list: no duplicates, at most MAX_BONDS, all bonded, and all the bonds there is room for. */
  lemma {:induction false} CollectedPeers(stored: seq<Addr>)
    ensures var p := CollectAll(stored);
      && NoDuplicates(p) && |p| <= MAX_BONDS
      && (forall a | a in p :: a in stored)
      && (|p| < MAX_BONDS ==> forall a | a in stored :: a in p)
  {
    if stored == [] {
    } else {
      var n := |stored| - 1;
      CollectedPeers(stored[..n]);
      forall a | a in stored && a != stored[n] ensures a in stored[..n] {
        var i :| 0 <= i < |stored| && stored[i] == a;
        assert stored[..n][i] == a;
      }
    }
  }

  /** `a` picks entries of `s` from `from` on, in order. */
  ghost predicate PicksInOrder(a: seq<Addr>, s: seq<Addr>, upTo: nat)
    requires upTo <= |s|
    decreases upTo
  {
    if upTo == 0 then a == []
    else (
      || PicksInOrder(a, s, upTo - 1)
      || (a != [] && a[|a| - 1] == s[upTo - 1] && PicksInOrder(a[..|a| - 1], s, upTo - 1)))
  }

  /** The chain's attempts so far: entries before s_pending_idx, each at most once, in order. */
  ghost predicate ChainInOrder(b: Ble) {
    b.idx <= |b.pending| && PicksInOrder(b.attempts, b.pending, b.idx)
  }

  lemma PickOrSkip(a: seq<Addr>, s: seq<Addr>, n: nat)
    requires n < |s| && PicksInOrder(a, s, n)
    ensures PicksInOrder(a, s, n + 1) && PicksInOrder(a + [s[n]], s, n + 1)
  {
    assert (a + [s[n]])[..|a|] == a;
  }

  lemma {:induction false} UnlinkedArePicks(a: seq<Addr>, s: seq<Addr>, from: nat, to: nat, linked: set<Addr>)
    requires from <= to <= |s| && PicksInOrder(a, s, from)
    ensures PicksInOrder(a + Unlinked(s, from, to, linked), s, to)
    decreases |s| - from
  {
    if from == to {
      assert a + [] == a;
    } else {
      PickOrSkip(a, s, from);
      var first := if s[from] in linked then [] else [s[from]];
      assert a + Unlinked(s, from, to, linked) == (a + first) + Unlinked(s, from + 1, to, linked);
      assert a + [] == a;
      UnlinkedArePicks(a + first, s, from + 1, to, linked);
    }
  }

  lemma ReconnectNextInOrder(b: Ble, luck: seq<bool>)
    requires ChainInOrder(b)
    ensures ChainInOrder(ReconnectNext(b, luck)) && ReconnectNext(b, luck).pending == b.pending
  {
    ChainGoesOn(b, luck);
    UnlinkedArePicks(b.attempts, b.pending, b.idx, ReconnectNext(b, luck).idx, b.world.links.Values);
  }

  /** Once exhausted, the chain stays exhausted and attempts nothing any more. */
  lemma ExhaustedChainRests(b: Ble, e: Event)
    requires Sized(b.world.mgr) && Enabled(b, e) && b.idx == |b.pending|
    ensures SameBeyondRadio(b, Step(b, e).(world := b.world))
  {
    if !e.ConnectOk? && !e.ConnectFailed? {
      OnlyConnectMovesChain(b, e);
    }
  }

  /** Only a CONNECT event moves the chain. */
  lemma OnlyConnectMovesChain(b: Ble, e: Event)
    requires Sized(b.world.mgr) && Enabled(b, e) && !e.ConnectOk? && !e.ConnectFailed?
    ensures SameBeyondRadio(b, Step(b, e).(world := b.world))
  {
    if e.Disconnect? {
      var told := Tell(b, Lifecycle.Unlink(e.h));
      assert SameBeyondRadio(told, OnDisconnectEvent(told, b.world.links[e.h], e.ok));
    }
  }

  lemma StepKeepsChain(b: Ble, e: Event)
    requires Sized(b.world.mgr) && Enabled(b, e) && ChainInOrder(b)
    ensures ChainInOrder(Step(b, e)) && Step(b, e).pending == b.pending
  {
    if e.ConnectOk? {
      var b1 := Tell(b, Lifecycle.Link(e.h, b.radio.peer)).(radio := Idle, connecting := false);
      ReconnectNextInOrder(b1, e.luck);
    } else if e.ConnectFailed? {
      ReconnectNextInOrder(b.(radio := Idle, connecting := false), e.luck);
    } else {
      OnlyConnectMovesChain(b, e);
    }
  }

  /** In order and without duplicates: each entry is attempted at most once. */
  lemma {:induction false} PicksAreDistinct(a: seq<Addr>, s: seq<Addr>, upTo: nat)
    requires upTo <= |s| && NoDuplicates(s) && PicksInOrder(a, s, upTo)
    ensures NoDuplicates(a) && forall x | x in a :: x in s[..upTo]
    decreases upTo
  {
    if upTo == 0 {
    } else {
      assert s[..upTo] == s[..upTo - 1] + [s[upTo - 1]];
      if PicksInOrder(a, s, upTo - 1) {
        PicksAreDistinct(a, s, upTo - 1);
      } else {
        var init, last := a[..|a| - 1], s[upTo - 1];
        PicksAreDistinct(init, s, upTo - 1);
        assert a == init + [last];
        assert last !in s[..upTo - 1];
        forall i, j | 0 <= i < j < |a| ensures a[i] != a[j] {
          if j < |init| {
            assert init[i] != init[j];
          } else {
            assert a[i] == init[i] && init[i] in s[..upTo - 1];
          }
        }
      }
    }
  }

  function After(b: Ble, run: seq<Event>): (r: Ble)
    requires Sized(b.world.mgr) && ValidRun(b, run)
    ensures Sized(r.world.mgr)
    decreases |run|
  {
    if run == [] then b else After(Step(b, run[0]), run[1..])
  }

  lemma {:induction false} RunKeepsChain(b: Ble, run: seq<Event>)
    requires Sized(b.world.mgr) && ValidRun(b, run) && ChainInOrder(b)
    ensures ChainInOrder(After(b, run)) && After(b, run).pending == b.pending
    decreases |run|
  {
    if run == [] {
    } else {
      StepKeepsChain(b, run[0]);
      RunKeepsChain(Step(b, run[0]), run[1..]);
    }
  }

  /** Whole runs: over any mix of events the boot chain attempts bonded peers only, each at most once, in the
      order of the duplicate-free pending list. */
  lemma BootChain(b: Ble, stored: seq<Addr>, luck: seq<bool>, run: seq<Event>)
    requires AtSync(b) && stored != [] && ValidRun(OnSync(b, stored, luck), run)
    ensures var r := After(OnSync(b, stored, luck), run);
      && NoDuplicates(r.attempts) && (forall a | a in r.attempts :: a in stored)
      && r.idx <= |CollectAll(stored)| && PicksInOrder(r.attempts, CollectAll(stored), r.idx)
  {
    var b1 := b.(pending := CollectAll(stored), idx := 0, attempts := []);
    CollectedNonEmpty(stored);
    CollectedPeers(stored);
    ReconnectNextInOrder(b1, luck);
    RunKeepsChain(OnSync(b, stored, luck), run);
    var r := After(OnSync(b, stored, luck), run);
    PicksAreDistinct(r.attempts, r.pending, r.idx);
  }
}
