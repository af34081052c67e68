/** What each event of Supervision.dfy does to the radio and the reconnect flags, peer by peer, and whom a backoff
    reconnects to over whole runs. */
module RadioEffects {
  import opened Base
  import opened Cameras
  import opened Supervision
  import Lifecycle

  /** A configured slot holds the address. */
  predicate Knows(b: Ble, a: Addr)
    requires Sized(b.world.mgr)
  {
    exists i :: 0 <= i < MAX_BONDS && b.world.mgr.cams[i].slot.configured && b.world.mgr.cams[i].slot.mac == a
  }

  /** Some remembered camera has no connection. */
  predicate Missing(b: Ble)
    requires Sized(b.world.mgr)
  {
    exists i :: 0 <= i < MAX_BONDS && b.world.mgr.cams[i].slot.configured
                && b.world.mgr.cams[i].slot.handle == HANDLE_NONE
  }

  lemma KnowsIsKnown(b: Ble, a: Addr)
    requires Sized(b.world.mgr)
    ensures IsKnown(b, a) <==> Knows(b, a)
  {
    if Knows(b, a) {
      var i :| 0 <= i < MAX_BONDS && b.world.mgr.cams[i].slot.configured && b.world.mgr.cams[i].slot.mac == a;
      assert HasAddr(b.world.mgr.cams[i].slot, a);
    }
  }

  lemma MissingIsDisconnected(b: Ble)
    requires Sized(b.world.mgr)
    ensures SomeDisconnected(b) <==> Missing(b)
  {
    HasDisconnectedMeaning(b.world.mgr.cams);
  }

  /** The radio after a scan was wanted: a background scan exactly if it was idle and a camera is missing. */
  function ScansIfMissing(b: Ble, radio: Radio): Radio
    requires Sized(b.world.mgr)
  {
    if radio.Idle? && Missing(b) then Scanning(false) else radio
  }

  /** Stopping a scan leaves the radio idle; a connection attempt goes on. */
  function ScanStopped(radio: Radio): Radio { if radio.Scanning? then Idle else radio }

  // ---- Slots and links -----------------------------------------------------------------------

  /** Which event the layer above is told, and that nothing else moves it. */
  lemma WorldMoves(b: Ble, e: Event)
    requires Sized(b.world.mgr) && Enabled(b, e)
    ensures e.ConnectOk? ==> Step(b, e).world == Lifecycle.Step(b.world, Lifecycle.Link(e.h, b.radio.peer))
    ensures e.Encrypted? ==> Step(b, e) == b.(world := Lifecycle.Step(b.world, Lifecycle.Encrypted(e.h)))
    ensures e.Disconnect? ==> Step(b, e).world == Lifecycle.Step(b.world, Lifecycle.Unlink(e.h))
    ensures e.Local? ==> Step(b, e) == b.(world := Lifecycle.Step(b.world, e.e))
    ensures IsQuiet(e) || e.ConnectFailed? ==> Step(b, e).world == b.world
  {
  }

  // ---- Disconnects and backoff ---------------------------------------------------------------

  /** A failed encryption is noted with its peer. */
  lemma FailureIsNoted(b: Ble, h: nat)
    requires Sized(b.world.mgr) && h in b.world.links
    ensures Step(b, EncryptionFailed(h)) == b.(encFailed := true, encFailedAddr := b.world.links[h])
  {
  }

  /** The disconnect takes the link away and no camera out of its slot. */
  lemma UnlinkKeepsKnown(b: Ble, h: nat, a: Addr)
    requires Inv(b) && h in b.world.links
    ensures Knows(Tell(b, Lifecycle.Unlink(h)), a) <==> Knows(b, a)
    ensures !IsLinked(Tell(b, Lifecycle.Unlink(h)), b.world.links[h])
  {
    UnlinkGone(b, h);
    forall i | 0 <= i < MAX_BONDS
      ensures var s, t := b.world.mgr.cams[i].slot, Tell(b, Lifecycle.Unlink(h)).world.mgr.cams[i].slot;
        t.configured == s.configured && t.mac == s.mac
    {
      Lifecycle.UnlinkSlot(b.world, h, i);
      var s, t := b.world.mgr.cams[i].slot, Tell(b, Lifecycle.Unlink(h)).world.mgr.cams[i].slot;
      assert RecordOf(t).mac == RecordOf(s).mac;
    }
  }

  lemma KnownAfterUnlink(b: Ble, h: nat)
    requires Inv(b) && h in b.world.links
    ensures var told := Tell(b, Lifecycle.Unlink(h)); var a := b.world.links[h];
      (IsKnown(told, a) <==> Knows(b, a)) && !IsLinked(told, a)
  {
    UnlinkKeepsKnown(b, h, b.world.links[h]);
    KnowsIsKnown(Tell(b, Lifecycle.Unlink(h)), b.world.links[h]);
  }

  /** The peer's encryption failed before: a backoff to that very peer is scheduled, and no connect is started. */
  lemma DisconnectBacksOff(b: Ble, h: nat, ok: bool)
    requires Inv(b) && h in b.world.links && Knows(b, b.world.links[h])
    requires b.encFailed && b.encFailedAddr == b.world.links[h]
    ensures var r := Step(b, Disconnect(h, ok));
      && r.backoffPending && r.backoffAddr == b.world.links[h] && r.timerArmed && r.eventQueued == b.eventQueued
      && !r.encFailed && !r.connecting && r.radio == ScanStopped(b.radio)
  {
    KnownAfterUnlink(b, h);
    BacksOff(Tell(b, Lifecycle.Unlink(h)), b.world.links[h], ok);
  }

  lemma BacksOff(b: Ble, a: Addr, ok: bool)
    requires IsKnown(b, a) && b.encFailed && b.encFailedAddr == a
    ensures OnDisconnectEvent(b, a, ok) ==
      b.(connecting := false, encFailed := false, backoffAddr := a, backoffPending := true, timerArmed := true,
         radio := ScanStopped(b.radio))
  {
  }

  /** Otherwise a remembered peer is connected to again at once, or looked for if the stack refuses; an attempt in
      progress goes on. */
  lemma DisconnectReconnects(b: Ble, h: nat, ok: bool)
    requires Inv(b) && h in b.world.links && Knows(b, b.world.links[h])
    requires !(b.encFailed && b.encFailedAddr == b.world.links[h])
    ensures var r := Step(b, Disconnect(h, ok));
      && r.radio == (if b.radio.Connecting? then b.radio
                     else if ok then Connecting(b.world.links[h], false) else Scanning(false))
      && !r.connecting && SameBackoff(b, r)
  {
    KnownAfterUnlink(b, h);
    ReconnectsAtOnce(Tell(b, Lifecycle.Unlink(h)), b.world.links[h], ok);
  }

  lemma ReconnectsAtOnce(b: Ble, a: Addr, ok: bool)
    requires IsKnown(b, a) && !IsLinked(b, a) && !(b.encFailed && b.encFailedAddr == a)
    ensures var r := OnDisconnectEvent(b, a, ok);
      && r.radio == (if b.radio.Connecting? then b.radio else if ok then Connecting(a, false) else Scanning(false))
      && !r.connecting && SameBackoff(b, r)
  {
  }

  /** A stranger's disconnect starts a scan at most. */
  lemma StrangersDisconnectScans(b: Ble, h: nat, ok: bool)
    requires Inv(b) && h in b.world.links && !Knows(b, b.world.links[h])
    ensures var r := Step(b, Disconnect(h, ok));
      r.radio == ScansIfMissing(r, b.radio) && !r.connecting && SameBackoff(b, r)
  {
    KnownAfterUnlink(b, h);
    MissingIsDisconnected(Step(b, Disconnect(h, ok)));
  }

  /** Backoff, timer and noted failure are as they were. */
  predicate SameBackoff(b: Ble, r: Ble) {
    && r.backoffPending == b.backoffPending && r.backoffAddr == b.backoffAddr
    && r.timerArmed == b.timerArmed && r.eventQueued == b.eventQueued
    && r.encFailed == b.encFailed && r.encFailedAddr == b.encFailedAddr
  }

  /** The backoff event: a pending backoff connects to its peer, or scans if it cannot; either way it is used up. */
  lemma BackoffReconnects(b: Ble, ok: bool)
    requires Sized(b.world.mgr) && b.eventQueued
    ensures var r := Step(b, BackoffElapsed(ok));
      && r == b.(eventQueued := false, backoffPending := false, radio := r.radio)
      && r.radio == if !b.backoffPending || !b.radio.Idle? then b.radio
                    else if ok && b.backoffAddr !in b.world.links.Values then Connecting(b.backoffAddr, false)
                    else Scanning(false)
  {
  }

  /** The timer puts the backoff event in the queue. */
  lemma TimerQueues(b: Ble)
    requires Sized(b.world.mgr) && b.timerArmed
    ensures Step(b, TimerFires) == b.(timerArmed := false, eventQueued := true)
  {
  }

  /** Only these events touch the backoff and the noted failure. */
  lemma OthersKeepBackoff(b: Ble, e: Event)
    requires Sized(b.world.mgr) && Enabled(b, e)
    requires !e.EncryptionFailed? && !e.Disconnect? && !e.TimerFires? && !e.BackoffElapsed?
    ensures SameBackoff(b, Step(b, e))
  {
    if e.ConnectOk? {
      var b1 := Tell(b, Lifecycle.Link(e.h, b.radio.peer)).(radio := Idle, connecting := false);
      ChainKeepsBackoff(b1, e.luck);
    } else if e.ConnectFailed? {
      ChainKeepsBackoff(b.(radio := Idle, connecting := false), e.luck);
    } else if IsQuiet(e) {
      QuietKeepsBackoff(b, e);
    }
  }

  lemma QuietKeepsBackoff(b: Ble, e: Event)
    requires IsQuiet(e) && Enabled(b, e) && !e.EncryptionFailed? && !e.TimerFires? && !e.BackoffElapsed?
    ensures SameBackoff(b, QuietStep(b, e))
  {
    if e.Advertisement? {
      AdvertisementKeepsBackoff(b, e.a, e.ok);
    } else if e.PairRequest? {
      PairingKeepsBackoff(b, e.a, e.ok);
    } else if e.StopDiscovery? {
      assert SameBackoff(GapScanCancel(b), StartScanIfNeeded(GapScanCancel(b)));
    }
  }

  lemma AdvertisementKeepsBackoff(b: Ble, a: Addr, ok: bool)
    ensures SameBackoff(b, OnAdvertisement(b, a, ok))
  {
    ConnectingKeepsBackoff(b, a, ok);
  }

  lemma ConnectingKeepsBackoff(b: Ble, a: Addr, ok: bool)
    ensures SameBackoff(b, ConnectAdvertised(b, a, ok))
  {
  }

  lemma PairingKeepsBackoff(b: Ble, a: Addr, ok: bool)
    ensures SameBackoff(b, OnPairRequest(b, a, ok))
  {
    if b.connecting {
    } else if b.radio.Connecting? {
      PairingWaits(b, a, ok);
    } else {
      PairingTakesRadio(b, a, ok);
    }
  }

  lemma {:induction false} ChainKeepsBackoff(b: Ble, luck: seq<bool>)
    ensures SameBackoff(b, ReconnectNext(b, luck))
    decreases |b.pending| - b.idx
  {
    if b.idx >= |b.pending| {
    } else {
      ChainPasses(b, luck);
      ChainKeepsBackoff(Passed(b), luck);
    }
  }

  // ---- Whom the backoff reconnects to, over whole runs ----------------------------------------

  /** The peer of this disconnect has a failed encryption noted. */
  predicate EndsFailedEncryption(b: Ble, e: Event)
    requires Enabled(b, e)
  {
    e.Disconnect? && b.encFailed && b.encFailedAddr == b.world.links[e.h]
  }

  /** Until the backoff event, no other peer comes back from a failed encryption. */
  predicate BackoffAlone(b: Ble, run: seq<Event>)
    requires Sized(b.world.mgr) && ValidRun(b, run)
    decreases |run|
  {
    || run == []
    || (!run[0].BackoffElapsed? && !EndsFailedEncryption(b, run[0]) && BackoffAlone(Step(b, run[0]), run[1..]))
  }

  /** A backoff is pending to `a`, with its timer or its event on the way. */
  predicate BackingOff(b: Ble, a: Addr) { b.backoffPending && b.backoffAddr == a && (b.timerArmed || b.eventQueued) }

  lemma {:induction false} BackoffWaits(b: Ble, run: seq<Event>, a: Addr)
    requires Inv(b) && NoneAbandoned(b) && ValidRun(b, run) && BackoffAlone(b, run) && BackingOff(b, a)
    ensures BackingOff(After(b, run), a)
    decreases |run|
  {
    if run == [] {
    } else {
      var e := run[0];
      StepKeeps(b, e);
      if e.Disconnect? {
        if Knows(b, b.world.links[e.h]) {
          DisconnectReconnects(b, e.h, e.ok);
        } else {
          StrangersDisconnectScans(b, e.h, e.ok);
        }
      } else if !e.EncryptionFailed? && !e.TimerFires? {
        OthersKeepBackoff(b, e);
      }
      BackoffWaits(Step(b, e), run[1..], a);
    }
  }

  /** Between the failed encryption on h and its disconnect: no other failure, and no other end of that link. */
  predicate FailureAlone(run: seq<Event>, h: nat) {
    forall k | 0 <= k < |run| :: !run[k].EncryptionFailed? && !(run[k].Disconnect? && run[k].h == h)
  }

  lemma FailureStaysStep(b: Ble, e: Event, h: nat, a: Addr)
    requires Inv(b) && Enabled(b, e) && !e.EncryptionFailed? && !(e.Disconnect? && e.h == h)
    requires b.encFailed && b.encFailedAddr == a && h in b.world.links && b.world.links[h] == a
    ensures var r := Step(b, e);
      r.encFailed && r.encFailedAddr == a && h in r.world.links && r.world.links[h] == a
  {
    WorldMoves(b, e);
    if e.Disconnect? {
      assert b.world.links[e.h] != a;
      if Knows(b, b.world.links[e.h]) {
        DisconnectReconnects(b, e.h, e.ok);
      } else {
        StrangersDisconnectScans(b, e.h, e.ok);
      }
    } else if e.BackoffElapsed? {
      BackoffReconnects(b, e.ok);
    } else if !e.TimerFires? {
      OthersKeepBackoff(b, e);
    }
  }

  lemma {:induction false} FailureStays(b: Ble, run: seq<Event>, h: nat, a: Addr)
    requires Inv(b) && NoneAbandoned(b) && ValidRun(b, run) && FailureAlone(run, h)
    requires b.encFailed && b.encFailedAddr == a && h in b.world.links && b.world.links[h] == a
    ensures var c := After(b, run);
      && Inv(c) && NoneAbandoned(c)
      && c.encFailed && c.encFailedAddr == a && h in c.world.links && c.world.links[h] == a
    decreases |run|
  {
    if run == [] {
    } else {
      StepKeeps(b, run[0]);
      FailureStaysStep(b, run[0], h, a);
      assert forall k | 0 <= k < |run[1..]| :: run[1..][k] == run[k + 1];
      FailureStays(Step(b, run[0]), run[1..], h, a);
    }
  }

  /** Main result.  Encryption fails on the link to a remembered camera; sooner or later that link goes down.  Then
      no connect is started, and a backoff is pending, with its timer or its event on the way.  However long that
      takes and whatever else happens, the backoff event connects to that camera, if the radio is idle, the camera
      not linked again, and the stack agrees. */
  lemma FailedEncryptionReconnects(b: Ble, h: nat, before: seq<Event>, ok: bool, after: seq<Event>)
    requires Inv(b) && NoneAbandoned(b) && h in b.world.links
    requires var b1 := Step(b, EncryptionFailed(h));
      && ValidRun(b1, before) && FailureAlone(before, h)
      && Knows(After(b1, before), b.world.links[h]) && Enabled(After(b1, before), Disconnect(h, ok))
    requires var b2 := Step(After(Step(b, EncryptionFailed(h)), before), Disconnect(h, ok));
      ValidRun(b2, after) && BackoffAlone(b2, after)
    ensures var b1 := After(Step(b, EncryptionFailed(h)), before); var b2 := Step(b1, Disconnect(h, ok));
      var c := After(b2, after);
      && b2.radio == ScanStopped(b1.radio)
      && c.backoffPending && (c.timerArmed || c.eventQueued)
      && (c.eventQueued && c.radio.Idle? && b.world.links[h] !in c.world.links.Values ==>
            Step(c, BackoffElapsed(true)).radio == Connecting(b.world.links[h], false))
  {
    var a := b.world.links[h];
    FailureIsNoted(b, h);
    StepKeeps(b, EncryptionFailed(h));
    FailureStays(Step(b, EncryptionFailed(h)), before, h, a);
    var b1 := After(Step(b, EncryptionFailed(h)), before);
    StepKeeps(b1, Disconnect(h, ok));
    DisconnectBacksOff(b1, h, ok);
    var b2 := Step(b1, Disconnect(h, ok));
    BackoffWaits(b2, after, a);
    var c := After(b2, after);
    if c.eventQueued {
      BackoffReconnects(c, true);
    }
  }

  // ---- The boot chain ------------------------------------------------------------------------

  /** Entry k has no link, and the stack would take a connect to it. */
  predicate Grants(pending: seq<Addr>, linked: set<Addr>, luck: seq<bool>, k: nat)
    requires k < |pending|
  {
    pending[k] !in linked && k < |luck| && luck[k]
  }

  /** The stack takes entry k and none from `from` on before it. */
  predicate GrantsFirst(pending: seq<Addr>, linked: set<Addr>, luck: seq<bool>, from: nat, k: nat) {
    && from <= k < |pending| && Grants(pending, linked, luck, k)
    && forall j | from <= j < k :: !Grants(pending, linked, luck, j)
  }

  predicate GrantsNone(pending: seq<Addr>, linked: set<Addr>, luck: seq<bool>, from: nat) {
    forall j | from <= j < |pending| :: !Grants(pending, linked, luck, j)
  }

  lemma NextEntry(b: Ble, luck: seq<bool>)
    requires b.radio.Idle? && b.idx < |b.pending|
    ensures ReconnectNext(b, luck) ==
      if Grants(b.pending, b.world.links.Values, luck, b.idx) then
        Passed(b).(radio := Connecting(b.pending[b.idx], false))
      else ReconnectNext(Passed(b), luck)
  {
  }

  lemma {:induction false} ChainConnectsTo(b: Ble, luck: seq<bool>, k: nat)
    requires b.radio.Idle? && GrantsFirst(b.pending, b.world.links.Values, luck, b.idx, k)
    ensures ReconnectNext(b, luck).idx == k + 1
    ensures ReconnectNext(b, luck).radio == Connecting(b.pending[k], false)
    decreases k - b.idx
  {
    NextEntry(b, luck);
    if b.idx == k {
    } else {
      var p := Passed(b);
      assert p.radio == b.radio && p.pending == b.pending && p.world == b.world && p.idx == b.idx + 1;
      ChainConnectsTo(p, luck, k);
    }
  }

  lemma {:induction false} ChainRunsOut(b: Ble, luck: seq<bool>)
    requires b.radio.Idle? && b.idx <= |b.pending| && GrantsNone(b.pending, b.world.links.Values, luck, b.idx)
    ensures ReconnectNext(b, luck).idx == |b.pending| && !ReconnectNext(b, luck).radio.Connecting?
    decreases |b.pending| - b.idx
  {
    if b.idx == |b.pending| {
    } else {
      NextEntry(b, luck);
      ChainRunsOut(Passed(b), luck);
    }
  }

  /** When a connection attempt ends the chain connects to the next entry the stack takes. */
  lemma AttemptConnectsNext(b: Ble, e: Event, k: nat)
    requires Sized(b.world.mgr) && Enabled(b, e) && EndsAttempt(e)
    requires GrantsFirst(b.pending, Step(b, e).world.links.Values, e.luck, b.idx, k)
    ensures Step(b, e).idx == k + 1 && Step(b, e).radio == Connecting(b.pending[k], false)
  {
    ChainConnectsTo(AttemptOver(b, e), e.luck, k);
  }

  /** Either way the attempt counts as over. */
  lemma AttemptIsOver(b: Ble, e: Event)
    requires Sized(b.world.mgr) && Enabled(b, e) && EndsAttempt(e) && b.idx <= |b.pending|
    ensures !Step(b, e).connecting && Step(b, e).pending == b.pending
  {
    ChainGoesOn(AttemptOver(b, e), e.luck);
  }

  /** If it takes none, the chain is exhausted, and the radio scans exactly if a camera is missing. */
  lemma AttemptRunsOut(b: Ble, e: Event)
    requires Sized(b.world.mgr) && Enabled(b, e) && EndsAttempt(e) && b.idx <= |b.pending|
    requires GrantsNone(b.pending, Step(b, e).world.links.Values, e.luck, b.idx)
    ensures Step(b, e).idx == |b.pending| && Step(b, e).radio == ScansIfMissing(Step(b, e), Idle)
  {
    ChainRunsOut(AttemptOver(b, e), e.luck);
    AttemptGivesWay(b, e);
    MissingIsDisconnected(Step(b, e));
  }

  /** The state in which the chain goes on. */
  function AttemptOver(b: Ble, e: Event): Ble
    requires Sized(b.world.mgr) && Enabled(b, e) && EndsAttempt(e)
  {
    var told := if e.ConnectOk? then Tell(b, Lifecycle.Link(e.h, b.radio.peer)) else b;
    told.(radio := Idle, connecting := false)
  }

  /** on_sync connects to the first bonded peer the stack takes. */
  lemma SyncConnectsFirst(b: Ble, stored: seq<Addr>, luck: seq<bool>, k: nat)
    requires AtSync(b) && stored != [] && GrantsFirst(CollectAll(stored), {}, luck, 0, k)
    ensures OnSync(b, stored, luck).radio == Connecting(CollectAll(stored)[k], false)
  {
    CollectedNonEmpty(stored);
    assert b.world.links.Values == {};
    ChainConnectsTo(b.(pending := CollectAll(stored), idx := 0, attempts := []), luck, k);
  }

  // ---- Scans, pairing, discovery -------------------------------------------------------------

  /** An advertisement of a remembered, unconnected camera ends the scan for a connect to it; refused, the radio scans
      on. */
  lemma AdvertisementConnects(b: Ble, a: Addr, ok: bool)
    requires Inv(b) && b.radio.Scanning? && Knows(b, a) && a !in b.world.links.Values
    ensures Step(b, Advertisement(a, ok)) ==
      if ok then b.(radio := Connecting(a, false), connecting := true) else b.(radio := Scanning(false))
  {
    KnowsIsKnown(b, a);
  }

  /** An advertisement of anyone but a remembered, unconnected camera changes nothing. */
  lemma OtherAdvertisementsPass(b: Ble, a: Addr, ok: bool)
    requires Inv(b) && b.radio.Scanning? && (!Knows(b, a) || a in b.world.links.Values)
    ensures Step(b, Advertisement(a, ok)) == b
  {
    KnowsIsKnown(b, a);
  }

  /** A pairing request connects to the requested peer, ending a scan for it; refused, the radio scans if a camera is
      missing; while a connection is being set up it is ignored. */
  lemma PairingConnects(b: Ble, a: Addr, ok: bool)
    requires Inv(b)
    ensures var r := Step(b, PairRequest(a, ok));
      if b.radio.Connecting? then r == b
      else if ok && a !in b.world.links.Values then r == b.(radio := Connecting(a, false), connecting := true)
      else r == b.(radio := ScansIfMissing(b, Idle))
  {
    MissingIsDisconnected(b);
    if b.radio.Connecting? {
      PairingWaits(b, a, ok);
    } else {
      PairingTakesRadio(b, a, ok);
    }
  }

  lemma PairingWaits(b: Ble, a: Addr, ok: bool)
    requires b.radio.Connecting?
    ensures OnPairRequest(b, a, ok) == b
  {
  }

  lemma PairingTakesRadio(b: Ble, a: Addr, ok: bool)
    requires !b.radio.Connecting? && !b.connecting
    ensures OnPairRequest(b, a, ok) ==
      if ok && !IsLinked(b, a) then b.(radio := Connecting(a, false), connecting := true)
      else b.(radio := if SomeDisconnected(b) then Scanning(false) else Idle)
  {
  }

  /** User discovery takes the radio unless a connection is being set up. */
  lemma DiscoveryScans(b: Ble)
    requires Sized(b.world.mgr)
    ensures Step(b, DiscoveryRequest) == b.(radio := if b.radio.Connecting? then b.radio else Scanning(true))
  {
  }

  /** When it is stopped, and when it ends by itself, a background scan follows if a camera is missing. */
  lemma DiscoveryEnds(b: Ble)
    requires Sized(b.world.mgr)
    ensures Step(b, Event.StopDiscovery) == b.(radio := ScansIfMissing(b, ScanStopped(b.radio)))
  {
    MissingIsDisconnected(b);
  }

  lemma DiscoveryRunsOut(b: Ble)
    requires Sized(b.world.mgr) && b.radio == Scanning(true)
    ensures Step(b, ScanComplete) == b.(radio := ScansIfMissing(b, Idle))
  {
    MissingIsDisconnected(b);
  }

  /** Removing a bond cancels an attempt in progress and nothing else here. */
  lemma RemovalCancels(b: Ble, a: Addr)
    requires Sized(b.world.mgr)
    ensures Step(b, RemoveBond(a)) ==
      b.(radio := if b.radio.Connecting? then Connecting(b.radio.peer, true) else b.radio)
  {
  }

  // ---- The pending list ----------------------------------------------------------------------

  /** The bonded peers are taken in the order of the store. */
  lemma {:induction false} CollectedInOrder(stored: seq<Addr>)
    ensures PicksInOrder(CollectAll(stored), stored, |stored|)
  {
    if stored == [] {
    } else {
      var n := |stored| - 1;
      CollectedInOrder(stored[..n]);
      SamePicks(CollectAll(stored[..n]), stored[..n], stored, n);
      PickOrSkip(CollectAll(stored[..n]), stored, n);
    }
  }

  lemma {:induction false} SamePicks(a: seq<Addr>, s: seq<Addr>, t: seq<Addr>, n: nat)
    requires n <= |s| && s <= t && PicksInOrder(a, s, n)
    ensures PicksInOrder(a, t, n)
    decreases n
  {
    if n == 0 {
    } else if PicksInOrder(a, s, n - 1) {
      SamePicks(a, s, t, n - 1);
    } else {
      SamePicks(a[..|a| - 1], s, t, n - 1);
    }
  }
}
