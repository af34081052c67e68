/** GATT discovery and subscription on one connection (gatt.c): a traversal driven by stack callbacks, which
    skips what fails and decides when a camera becomes ready. */
module Discovery {
  import opened Base
  import opened Cameras

  const MAX_SERVICES: nat := 16
  const MAX_NOTIFY_CHRS: nat := 16

  datatype Service = Service(first: nat, last: nat)

  /** A discovered characteristic; `gp` is its GoPro number when its UUID is one of the twelve known ones. */
  datatype Characteristic = Characteristic(gp: Option<nat>, is16Bit: bool, valHandle: nat, notify: bool, indicate: bool)

  /** A subscription to make: the Client Characteristic Configuration descriptor and the value to write. */
  datatype Subscription = Subscription(cccd: nat, value: nat)

  /** What the stack is working on for this connection. */
  datatype Procedure = NoProc | Mtu | Services | Chars | CccdWrite

  /** gatt_disc_ctx_t, the procedure in progress, and the history of the run. */
  datatype Disc = Disc(
    active: bool, svcs: seq<Service>, svcIdx: nat, chrs: seq<Subscription>, notifyIdx: nat, handles: Handles,
    proc: Procedure,
    seenSvcs: seq<Service>, seenChrs: seq<Characteristic>,   // reported by the stack
    scans: seq<Service>, writes: seq<Subscription>,          // asked of the stack, granted or not
    stored: seq<Handles>, readies: nat)                      // pushed to the driver context; gatt_ready set

  /** Return code of the next stack call: true for zero. */
  function Rc(rcs: seq<bool>): bool { rcs != [] && rcs[0] }

  function Rest(rcs: seq<bool>): seq<bool> { if rcs == [] then [] else rcs[1..] }

  /** start_gatt_discovery, once a context was allocated, and begin_service_discovery. */
  function Begin(rcs: seq<bool>): Disc {
    var d := Disc(true, [], 0, [], 0, map[], NoProc, [], [], [], [], [], 0);
    if Rc(rcs) then d.(proc := Mtu) else BeginServices(d, Rest(rcs))
  }

  function BeginServices(d: Disc, rcs: seq<bool>): Disc {
    if Rc(rcs) then d.(proc := Services) else d.(proc := NoProc, active := false)
  }

  /** svc_disc_cb for a service. */
  function OnService(d: Disc, s: Service): Disc {
    if !d.active then d
    else d.(seenSvcs := d.seenSvcs + [s], svcs := if |d.svcs| < MAX_SERVICES then d.svcs + [s] else d.svcs)
  }

  /** The descriptor right after the value handle; 1 asks for notifications, 2 for indications. */
  function SubscriptionFor(c: Characteristic): Subscription {
    Subscription((c.valHandle + 1) % 0x1_0000, if c.notify then 1 else 2)
  }

  predicate WantsSubscription(c: Characteristic) { (c.notify || c.indicate) && !c.is16Bit }

  /** chr_disc_cb for a characteristic. */
  function OnChar(d: Disc, c: Characteristic): Disc {
    if !d.active then d
    else d.(seenChrs := d.seenChrs + [c],
            handles := if c.gp.Some? then d.handles[c.gp.value := c.valHandle] else d.handles,
            chrs := if WantsSubscription(c) && |d.chrs| < MAX_NOTIFY_CHRS then d.chrs + [SubscriptionFor(c)] else d.chrs)
  }

  /** start_char_discovery: scan the next service, skipping those the stack refuses. */
  function StartChars(d: Disc, rcs: seq<bool>, known: bool): Disc
    decreases |d.svcs| - d.svcIdx
  {
    if d.svcIdx >= |d.svcs| then StartSubscriptions(d, rcs, known)
    else
      var asked := d.(scans := d.scans + [d.svcs[d.svcIdx]]);
      if Rc(rcs) then asked.(proc := Chars)
      else StartChars(asked.(svcIdx := d.svcIdx + 1), Rest(rcs), known)
  }

  /** start_cccd_subscriptions; `known` says whether the handle still has a slot. */
  function StartSubscriptions(d: Disc, rcs: seq<bool>, known: bool): Disc {
    if d.chrs == [] then
      d.(proc := NoProc, active := false, stored := if known then d.stored + [d.handles] else d.stored)
    else
      var asked := d.(notifyIdx := 0, writes := d.writes + [d.chrs[0]]);
      if Rc(rcs) then asked.(proc := CccdWrite) else asked.(proc := NoProc, active := false)
  }

  /** cccd_write_cb: move on to the next subscription, skipping those the stack refuses; after the last one
      store the handles and mark the camera ready. */
  function OnWritten(d: Disc, rcs: seq<bool>, known: bool): Disc
    decreases |d.chrs| - d.notifyIdx
  {
    var i := d.notifyIdx + 1;
    if i < |d.chrs| then
      var asked := d.(notifyIdx := i, writes := d.writes + [d.chrs[i]]);
      if Rc(rcs) then asked.(proc := CccdWrite) else OnWritten(asked, Rest(rcs), known)
    else if known then
      d.(notifyIdx := i, proc := NoProc, active := false, stored := d.stored + [d.handles], readies := d.readies + 1)
    else d.(notifyIdx := i, proc := NoProc, active := false)
  }

  /** Callbacks of the stack (success and error statuses of a completion are handled alike except for services),
      and the disconnect.  `known`: camera_manager_find_by_handle finds a slot. */
  datatype Event =
    | MtuDone(rcs: seq<bool>)
    | FoundService(s: Service)
    | ServicesDone(rcs: seq<bool>, known: bool)
    | ServicesError
    | FoundChar(c: Characteristic)
    | CharsDone(rcs: seq<bool>, known: bool)
    | Written(rcs: seq<bool>, known: bool)
    | Disconnected

  /** The stack reports only on the procedure in progress. */
  predicate Enabled(d: Disc, e: Event) {
    match e
    case MtuDone(_) => d.proc.Mtu?
    case FoundService(_) => d.proc.Services?
    case ServicesDone(_, _) => d.proc.Services?
    case ServicesError => d.proc.Services?
    case FoundChar(_) => d.proc.Chars?
    case CharsDone(_, _) => d.proc.Chars?
    case Written(_, _) => d.proc.CccdWrite?
    case Disconnected => true
  }

  function Step(d: Disc, e: Event): Disc
    requires Enabled(d, e)
  {
    match e
    case MtuDone(rcs) => BeginServices(d, rcs)
    case FoundService(s) => OnService(d, s)
    case ServicesDone(rcs, known) => StartChars(d, rcs, known)
    case ServicesError => d.(proc := NoProc, active := false)
    case FoundChar(c) => OnChar(d, c)
    case CharsDone(rcs, known) => StartChars(d.(svcIdx := d.svcIdx + 1), rcs, known)
    case Written(rcs, known) => OnWritten(d, rcs, known)
    case Disconnected => d.(proc := NoProc, active := false)
  }

  // ---- What every run keeps ------------------------------------------------------------------

  function FirstN<T>(s: seq<T>, n: nat): seq<T> { if |s| <= n then s else s[..n] }

  /** The subscriptions a list of characteristics asks for. */
  function Wanted(cs: seq<Characteristic>): seq<Subscription> {
    if cs == [] then []
    else
      var last := cs[|cs| - 1];
      Wanted(cs[..|cs| - 1]) + if WantsSubscription(last) then [SubscriptionFor(last)] else []
  }

  /** The traversal's invariant: what was recorded is what was reported, up to the table sizes; services are
      scanned in order, each once; subscriptions are attempted in order, each at most once, and only after all
      services were scanned; readiness comes at most once and only after all subscriptions and the handles. */
  ghost predicate Inv(d: Disc) {
    && d.svcs == FirstN(d.seenSvcs, MAX_SERVICES)
    && d.chrs == FirstN(Wanted(d.seenChrs), MAX_NOTIFY_CHRS)
    && (d.active <==> !d.proc.NoProc?)
    && d.scans <= d.svcs && d.writes <= d.chrs
    && (d.writes != [] ==> d.scans == d.svcs)
    && d.readies <= 1 && |d.stored| <= 1 && (forall i | 0 <= i < |d.stored| :: d.stored[i] == d.handles)
    && (d.readies == 1 ==> !d.active && d.scans == d.svcs && d.writes == d.chrs != [] && d.stored == [d.handles])
    && (d.active ==> d.readies == 0 && d.stored == [])
    && (d.proc.Mtu? || d.proc.Services? ==>
          d.svcIdx == 0 && d.scans == [] && d.writes == [] && d.seenChrs == [] && d.handles == map[])
    && (d.proc.Chars? ==> d.svcIdx < |d.svcs| && d.scans == d.svcs[..d.svcIdx + 1] && d.writes == [])
    && (d.proc.CccdWrite? ==>
          d.notifyIdx < |d.chrs| && d.scans == d.svcs && d.writes == d.chrs[..d.notifyIdx + 1])
  }

  /** The state inside start_char_discovery: svcIdx services are behind, none is being scanned. */
  ghost predicate BetweenServices(d: Disc) {
    && d.svcs == FirstN(d.seenSvcs, MAX_SERVICES)
    && d.chrs == FirstN(Wanted(d.seenChrs), MAX_NOTIFY_CHRS)
    && d.active && d.svcIdx <= |d.svcs| && d.scans == d.svcs[..d.svcIdx] && d.writes == []
    && d.readies == 0 && d.stored == []
  }

  lemma StartSubscriptionsKeeps(d: Disc, rcs: seq<bool>, known: bool)
    requires BetweenServices(d) && d.svcIdx == |d.svcs|
    ensures Inv(StartSubscriptions(d, rcs, known))
  {
    assert d.svcs[..|d.svcs|] == d.svcs;
    if d.chrs != [] {
      assert [] + [d.chrs[0]] == d.chrs[..1];
    }
  }

  lemma {:induction false} StartCharsKeeps(d: Disc, rcs: seq<bool>, known: bool)
    requires BetweenServices(d)
    ensures Inv(StartChars(d, rcs, known))
    decreases |d.svcs| - d.svcIdx
  {
    if d.svcIdx >= |d.svcs| {
      StartSubscriptionsKeeps(d, rcs, known);
    } else {
      var asked := d.(scans := d.scans + [d.svcs[d.svcIdx]]);
      assert asked.scans == d.svcs[..d.svcIdx + 1];
      if !Rc(rcs) {
        StartCharsKeeps(asked.(svcIdx := d.svcIdx + 1), Rest(rcs), known);
      }
    }
  }

  lemma {:induction false} OnWrittenKeeps(d: Disc, rcs: seq<bool>, known: bool)
    requires Inv(d.(proc := CccdWrite)) && d.active
    ensures Inv(OnWritten(d, rcs, known))
    decreases |d.chrs| - d.notifyIdx
  {
    var i := d.notifyIdx + 1;
    if i < |d.chrs| {
      var asked := d.(notifyIdx := i, writes := d.writes + [d.chrs[i]]);
      assert asked.writes == d.chrs[..i + 1];
      if !Rc(rcs) {
        OnWrittenKeeps(asked, Rest(rcs), known);
      }
    } else {
      assert d.chrs[..i] == d.chrs;
    }
  }

  lemma OnServiceKeeps(d: Disc, s: Service)
    requires Inv(d) && d.proc.Services?
    ensures Inv(OnService(d, s))
  {
    if |d.seenSvcs| >= MAX_SERVICES {
      assert (d.seenSvcs + [s])[..MAX_SERVICES] == d.seenSvcs[..MAX_SERVICES];
    }
  }

  lemma OnCharKeeps(d: Disc, c: Characteristic)
    requires Inv(d) && d.proc.Chars?
    ensures Inv(OnChar(d, c))
  {
    var seen := d.seenChrs + [c];
    assert seen[..|seen| - 1] == d.seenChrs;
    var w := Wanted(d.seenChrs);
    if |w| >= MAX_NOTIFY_CHRS {
      assert forall x: Subscription :: (w + [x])[..MAX_NOTIFY_CHRS] == w[..MAX_NOTIFY_CHRS];
    }
  }

  lemma StepKeeps(d: Disc, e: Event)
    requires Inv(d) && Enabled(d, e)
    ensures Inv(Step(d, e))
  {
    match e
    case MtuDone(rcs) =>
    case FoundService(s) => OnServiceKeeps(d, s);
    case ServicesDone(rcs, known) =>
      assert Wanted([]) == [] && d.svcs[..0] == [];
      StartCharsKeeps(d, rcs, known);
    case ServicesError =>
    case FoundChar(c) => OnCharKeeps(d, c);
    case CharsDone(rcs, known) => StartCharsKeeps(d.(svcIdx := d.svcIdx + 1), rcs, known);
    case Written(rcs, known) => OnWrittenKeeps(d, rcs, known);
    case Disconnected =>
  }

  predicate ValidRun(d: Disc, run: seq<Event>)
    decreases |run|
  {
    run == [] || (Enabled(d, run[0]) && ValidRun(Step(d, run[0]), run[1..]))
  }

  function After(d: Disc, run: seq<Event>): Disc
    requires ValidRun(d, run)
    decreases |run|
  {
    if run == [] then d else After(Step(d, run[0]), run[1..])
  }

  lemma {:induction false} RunKeeps(d: Disc, run: seq<Event>)
    requires Inv(d) && ValidRun(d, run)
    ensures Inv(After(d, run))
    decreases |run|
  {
    if run == [] {
    } else {
      StepKeeps(d, run[0]);
      RunKeeps(Step(d, run[0]), run[1..]);
    }
  }

  /** What the stack reported in a run. */
  function FoundServices(run: seq<Event>): seq<Service> {
    if run == [] then [] else ServiceOf(run[0]) + FoundServices(run[1..])
  }

  function FoundChars(run: seq<Event>): seq<Characteristic> {
    if run == [] then [] else CharOf(run[0]) + FoundChars(run[1..])
  }

  function ServiceOf(e: Event): seq<Service> { if e.FoundService? then [e.s] else [] }

  function CharOf(e: Event): seq<Characteristic> { if e.FoundChar? then [e.c] else [] }

  /** The value handle of the last characteristic with GoPro number gp, or 0. */
  function LastHandle(cs: seq<Characteristic>, gp: nat): nat {
    if cs == [] then 0
    else if cs[|cs| - 1].gp == Some(gp) then cs[|cs| - 1].valHandle
    else LastHandle(cs[..|cs| - 1], gp)
  }

  ghost predicate HandlesAreLast(d: Disc) {
    forall gp: nat :: HandleOf(d.handles, gp) == LastHandle(d.seenChrs, gp)
  }

  lemma LastHandleSnoc(cs: seq<Characteristic>, c: Characteristic, gp: nat)
    ensures LastHandle(cs + [c], gp) == if c.gp == Some(gp) then c.valHandle else LastHandle(cs, gp)
  {
    assert (cs + [c])[..|cs|] == cs;
  }

  lemma {:induction false} StartCharsRecordsNothing(d: Disc, rcs: seq<bool>, known: bool)
    ensures var r := StartChars(d, rcs, known);
      r.seenSvcs == d.seenSvcs && r.seenChrs == d.seenChrs && r.handles == d.handles
    decreases |d.svcs| - d.svcIdx
  {
    if d.svcIdx >= |d.svcs| || Rc(rcs) {
    } else {
      var asked := d.(scans := d.scans + [d.svcs[d.svcIdx]]);
      StartCharsRecordsNothing(asked.(svcIdx := d.svcIdx + 1), Rest(rcs), known);
    }
  }

  lemma {:induction false} OnWrittenRecordsNothing(d: Disc, rcs: seq<bool>, known: bool)
    ensures var r := OnWritten(d, rcs, known);
      r.seenSvcs == d.seenSvcs && r.seenChrs == d.seenChrs && r.handles == d.handles
    decreases |d.chrs| - d.notifyIdx
  {
    var i := d.notifyIdx + 1;
    if i >= |d.chrs| || Rc(rcs) {
    } else {
      OnWrittenRecordsNothing(d.(notifyIdx := i, writes := d.writes + [d.chrs[i]]), Rest(rcs), known);
    }
  }

  lemma CharIsRecorded(d: Disc, c: Characteristic)
    requires d.active && HandlesAreLast(d)
    ensures OnChar(d, c).seenChrs == d.seenChrs + [c] && HandlesAreLast(OnChar(d, c))
  {
    forall gp: nat ensures HandleOf(OnChar(d, c).handles, gp) == LastHandle(d.seenChrs + [c], gp) {
      LastHandleSnoc(d.seenChrs, c, gp);
      assert HandleOf(d.handles, gp) == LastHandle(d.seenChrs, gp);
    }
  }

  lemma OthersRecordNoChar(d: Disc, e: Event)
    requires Inv(d) && Enabled(d, e) && !e.FoundChar?
    ensures var r := Step(d, e);
      r.seenSvcs == d.seenSvcs + ServiceOf(e) && r.seenChrs == d.seenChrs && r.handles == d.handles
  {
    assert d.seenSvcs + [] == d.seenSvcs;
    if e.ServicesDone? {
      StartCharsRecordsNothing(d, e.rcs, e.known);
    } else if e.CharsDone? {
      StartCharsRecordsNothing(d.(svcIdx := d.svcIdx + 1), e.rcs, e.known);
    } else if e.Written? {
      OnWrittenRecordsNothing(d, e.rcs, e.known);
    }
  }

  /** One callback records what it reports. */
  lemma StepRecords(d: Disc, e: Event)
    requires Inv(d) && Enabled(d, e) && HandlesAreLast(d)
    ensures var r := Step(d, e);
      && r.seenSvcs == d.seenSvcs + ServiceOf(e)
      && r.seenChrs == d.seenChrs + CharOf(e)
      && HandlesAreLast(r)
  {
    assert d.seenSvcs + [] == d.seenSvcs && d.seenChrs + [] == d.seenChrs;
    if e.FoundChar? {
      CharIsRecorded(d, e.c);
    } else {
      OthersRecordNoChar(d, e);
    }
  }

  lemma {:induction false} RunRecords(d: Disc, run: seq<Event>)
    requires Inv(d) && ValidRun(d, run) && HandlesAreLast(d)
    ensures var r := After(d, run);
      && r.seenSvcs == d.seenSvcs + FoundServices(run) && r.seenChrs == d.seenChrs + FoundChars(run)
      && HandlesAreLast(r)
    decreases |run|
  {
    if run == [] {
    } else {
      var e, d1 := run[0], Step(d, run[0]);
      StepKeeps(d, e);
      StepRecords(d, e);
      RunRecords(d1, run[1..]);
      Regroup(d.seenSvcs, ServiceOf(e), FoundServices(run[1..]));
      Regroup(d.seenChrs, CharOf(e), FoundChars(run[1..]));
    }
  }

  lemma Regroup<T>(a: seq<T>, b: seq<T>, c: seq<T>)
    ensures (a + b) + c == a + (b + c)
  {
  }

  /** Services and subscriptions went in the order of the report, each at most once, and readiness came after all. */
  ghost predicate Orderly(d: Disc, svcs: seq<Service>, cs: seq<Characteristic>) {
    && d.readies <= 1 && |d.stored| <= 1
    && d.scans <= FirstN(svcs, MAX_SERVICES)
    && d.writes <= FirstN(Wanted(cs), MAX_NOTIFY_CHRS)
    && (d.readies == 1 ==>
          && d.scans == FirstN(svcs, MAX_SERVICES)
          && d.writes == FirstN(Wanted(cs), MAX_NOTIFY_CHRS) != []
          && |d.stored| == 1)
  }

  /** Stored handles are, for each GoPro number, that of the last characteristic reported with it. */
  ghost predicate StoresLast(d: Disc, cs: seq<Characteristic>) {
    d.stored != [] ==> forall gp: nat :: HandleOf(d.stored[0], gp) == LastHandle(cs, gp)
  }

  lemma InvIsOrderly(d: Disc)
    requires Inv(d)
    ensures Orderly(d, d.seenSvcs, d.seenChrs)
  {
  }

  lemma StoredAreLast(d: Disc)
    requires Inv(d) && HandlesAreLast(d)
    ensures StoresLast(d, d.seenChrs)
  {
    if d.stored != [] {
      assert d.stored[0] == d.handles;
    }
  }

  /** Main result, over every run of callbacks, error statuses and return codes: gatt_ready is set at most once,
      and only when every recorded service (the first sixteen reported) was scanned once in order, every
      notifying characteristic recorded (the first sixteen) got exactly one CCCD write attempt in order, with 1
      for notify and 2 for indicate, and the handles were stored. */
  lemma ReadyMeans(begin: seq<bool>, run: seq<Event>)
    requires ValidRun(Begin(begin), run)
    ensures Orderly(After(Begin(begin), run), FoundServices(run), FoundChars(run))
    ensures StoresLast(After(Begin(begin), run), FoundChars(run))
  {
    var b := Begin(begin);
    BeginKeeps(begin);
    RunKeeps(b, run);
    RunRecords(b, run);
    var d := After(b, run);
    assert [] + FoundServices(run) == FoundServices(run) && [] + FoundChars(run) == FoundChars(run);
    InvIsOrderly(d);
    StoredAreLast(d);
  }

  lemma BeginKeeps(begin: seq<bool>)
    ensures Inv(Begin(begin)) && HandlesAreLast(Begin(begin))
    ensures Begin(begin).seenSvcs == [] && Begin(begin).seenChrs == []
  {
    assert Wanted([]) == [];
  }

  /** A characteristic with a 128-bit UUID that notifies or indicates is subscribed to at the handle after its value,
      with 1 if it notifies and 2 if it only indicates. */
  predicate Subscribes(c: Characteristic, x: Subscription) {
    && !c.is16Bit && (c.notify || c.indicate)
    && x.cccd == (c.valHandle + 1) % 0x1_0000 && x.value == if c.notify then 1 else 2
  }

  /** The subscriptions asked for are these, for all characteristics that have one, and no others. */
  lemma {:induction false} WantedMeans(cs: seq<Characteristic>)
    ensures forall x | x in Wanted(cs) :: exists c :: c in cs && Subscribes(c, x)
    ensures forall c, x | c in cs && Subscribes(c, x) :: x in Wanted(cs)
    ensures |Wanted(cs)| <= |cs|
  {
    if cs == [] {
    } else {
      var init, last := cs[..|cs| - 1], cs[|cs| - 1];
      WantedMeans(init);
      assert cs == init + [last];
      forall x | x in Wanted(cs) ensures exists c :: c in cs && Subscribes(c, x) {
        if x in Wanted(init) {
          var c :| c in init && Subscribes(c, x);
          assert c in cs;
        } else {
          assert Subscribes(last, x) && last in cs;
        }
      }
      forall c, x | c in cs && Subscribes(c, x) ensures x in Wanted(cs) {
        assert c in init || c == last;
      }
    }
  }

  /** The first descriptor write decides: if the stack refuses it, or there is nothing to subscribe to, the run
      is over and the camera never becomes ready on this connection. */
  lemma FirstWriteDecides(d: Disc, rcs: seq<bool>, known: bool, run: seq<Event>)
    requires BetweenServices(d) && d.svcIdx == |d.svcs| && (d.chrs == [] || !Rc(rcs))
    requires ValidRun(StartSubscriptions(d, rcs, known), run)
    ensures After(StartSubscriptions(d, rcs, known), run).readies == 0
  {
    OverIsOver(StartSubscriptions(d, rcs, known), run);
  }

  lemma {:induction false} OverIsOver(d: Disc, run: seq<Event>)
    requires d.proc.NoProc? && !d.active && ValidRun(d, run)
    ensures After(d, run) == d
    decreases |run|
  {
    if run == [] {
    } else {
      OverIsOver(Step(d, run[0]), run[1..]);
    }
  }

  /** One completed write, whatever is granted or refused next: another write is under way, or it is over, and
      then the camera is ready exactly when its slot was found. */
  lemma {:induction false} WrittenGoesOnOrEnds(d: Disc, rcs: seq<bool>, known: bool)
    requires d.notifyIdx < |d.chrs| && d.readies == 0
    ensures var r := OnWritten(d, rcs, known);
      if r.proc.CccdWrite? then r.notifyIdx < |r.chrs| && r.readies == 0
      else r.proc.NoProc? && r.readies == if known then 1 else 0
    decreases |d.chrs| - d.notifyIdx
  {
    var i := d.notifyIdx + 1;
    if i == |d.chrs| {
    } else if !Rc(rcs) {
      WrittenGoesOnOrEnds(d.(notifyIdx := i, writes := d.writes + [d.chrs[i]]), Rest(rcs), known);
    }
  }

  /** The link stays up. */
  predicate LinkHolds(run: seq<Event>) { forall i | 0 <= i < |run| :: run[i] != Event.Disconnected }

  /** The last write completed on a connection that still has a slot. */
  predicate EndsWithSlot(run: seq<Event>) { run != [] && run[|run| - 1].Written? && run[|run| - 1].known }

  lemma NothingAfterTheEnd(d: Disc, run: seq<Event>)
    requires d.proc.NoProc? && ValidRun(d, run) && LinkHolds(run)
    ensures run == []
  {
  }

  lemma {:induction false} WritesEndReady(d: Disc, run: seq<Event>)
    requires d.proc.CccdWrite? && d.notifyIdx < |d.chrs| && d.readies == 0
    requires ValidRun(d, run) && LinkHolds(run) && After(d, run).proc.NoProc?
    ensures After(d, run).readies == 1 <==> EndsWithSlot(run)
    decreases |run|
  {
    var e, rest := run[0], run[1..];
    WrittenGoesOnOrEnds(d, e.rcs, e.known);
    if Step(d, e).proc.CccdWrite? {
      WritesEndReady(Step(d, e), rest);
    } else {
      NothingAfterTheEnd(Step(d, e), rest);
      assert run == [e];
    }
  }

  /** Exactly when subscribing makes the camera ready.  For any mix of granted and refused writes and any write
      statuses, once nothing is under way any more on a link that stayed up: the camera is ready if and only if
      there was something to subscribe to, the stack took the first write, and the slot was found at the end. */
  lemma ReadyIff(d: Disc, rcs: seq<bool>, known: bool, run: seq<Event>)
    requires BetweenServices(d) && d.svcIdx == |d.svcs|
    requires ValidRun(StartSubscriptions(d, rcs, known), run) && LinkHolds(run)
    requires After(StartSubscriptions(d, rcs, known), run).proc.NoProc?
    ensures After(StartSubscriptions(d, rcs, known), run).readies == 1 <==>
      d.chrs != [] && Rc(rcs) && EndsWithSlot(run)
  {
    if d.chrs == [] || !Rc(rcs) {
      FirstWriteDecides(d, rcs, known, run);
    } else {
      WritesEndReady(StartSubscriptions(d, rcs, known), run);
    }
  }

  lemma RunCons(d: Disc, e: Event, rest: seq<Event>)
    requires Enabled(d, e) && ValidRun(Step(d, e), rest)
    ensures ValidRun(d, [e] + rest) && After(d, [e] + rest) == After(Step(d, e), rest)
  {
    assert ([e] + rest)[1..] == rest;
  }

  /** A connection with one service and one notifying characteristic; `granted` is the stack's word on the
      descriptor write. */
  function OneCharacteristic(granted: bool, rest: seq<Event>): seq<Event> {
    [MtuDone([true])] + ([FoundService(Service(1, 9))] + ([ServicesDone([true], true)]
      + ([FoundChar(Characteristic(Some(0x73), false, 3, true, false))] + ([CharsDone([granted], true)] + rest))))
  }

  lemma OneCharacteristicRuns(granted: bool, rest: seq<Event>) returns (d: Disc)
    ensures d.chrs == [Subscription(4, 1)] && d.writes == d.chrs && d.notifyIdx == 0 && d.readies == 0
    ensures d.proc == if granted then CccdWrite else NoProc
    ensures ValidRun(d, rest) ==> ValidRun(Begin([true]), OneCharacteristic(granted, rest))
    ensures ValidRun(d, rest) ==> After(Begin([true]), OneCharacteristic(granted, rest)) == After(d, rest)
  {
    var d0 := Begin([true]);
    var e1, e2, e3 := MtuDone([true]), FoundService(Service(1, 9)), ServicesDone([true], true);
    var e4, e5 := FoundChar(Characteristic(Some(0x73), false, 3, true, false)), CharsDone([granted], true);
    var d1 := Step(d0, e1);
    var d2 := Step(d1, e2);
    var d3 := Step(d2, e3);
    assert d3.proc == Chars && d3.svcs == d3.scans == [Service(1, 9)] && d3.chrs == d3.writes == [];
    var d4 := Step(d3, e4);
    assert d4 == d3.(chrs := [Subscription(4, 1)], handles := d4.handles, seenChrs := d4.seenChrs);
    d := Step(d4, e5);
    if ValidRun(d, rest) {
      RunCons(d4, e5, rest);
      RunCons(d3, e4, [e5] + rest);
      RunCons(d2, e3, [e4] + ([e5] + rest));
      RunCons(d1, e2, [e3] + ([e4] + ([e5] + rest)));
      RunCons(d0, e1, [e2] + ([e3] + ([e4] + ([e5] + rest))));
    }
  }

  /** A failing input: with the first write refused nothing is under way any more and the camera is not ready.
      Had it been taken, its completion would have made the camera ready. */
  lemma RefusedFirstWriteExample()
    ensures ValidRun(Begin([true]), OneCharacteristic(false, []))
    ensures After(Begin([true]), OneCharacteristic(false, [])).proc.NoProc?
    ensures After(Begin([true]), OneCharacteristic(false, [])).readies == 0
    ensures ValidRun(Begin([true]), OneCharacteristic(true, [Written([], true)]))
    ensures After(Begin([true]), OneCharacteristic(true, [Written([], true)])).readies == 1
  {
    var refused := OneCharacteristicRuns(false, []);
    var taken := OneCharacteristicRuns(true, [Written([], true)]);
    assert [Written([], true)] + [] == [Written([], true)];
    RunCons(taken, Written([], true), []);
  }

  // ---- The callbacks of the source -----------------------------------------------------------

  class DiscoveryContext {
    var active: bool
    var svcs: seq<Service>
    var svcIdx: nat
    var notifyChrs: seq<Subscription>
    var notifyIdx: nat
    var handles: Handles
    ghost var proc: Procedure
    ghost var seenSvcs: seq<Service>
    ghost var seenChrs: seq<Characteristic>
    ghost var scans: seq<Service>
    ghost var writes: seq<Subscription>
    ghost var stored: seq<Handles>
    ghost var readies: nat

    ghost function State(): Disc
      reads this
    {
      Disc(active, svcs, svcIdx, notifyChrs, notifyIdx, handles, proc, seenSvcs, seenChrs, scans, writes,
           stored, readies)
    }

    constructor (rcs: seq<bool>)
      ensures State() == Begin(rcs)
    {
      active, svcs, svcIdx, notifyChrs, notifyIdx, handles := true, [], 0, [], 0, map[];
      proc, seenSvcs, seenChrs, scans, writes, stored, readies := NoProc, [], [], [], [], [], 0;
      new;
      if Rc(rcs) {
        proc := Mtu;
      } else {
        BeginServiceDiscovery(Rest(rcs));
      }
    }

    method BeginServiceDiscovery(rcs: seq<bool>)
      modifies this
      ensures State() == BeginServices(old(State()), rcs)
    {
      if Rc(rcs) {
        proc := Services;
      } else {
        proc := NoProc;
        active := false;
      }
    }

    method SvcDiscCb(s: Service)
      modifies this
      ensures State() == OnService(old(State()), s)
    {
      if !active {
        return;
      }
      seenSvcs := seenSvcs + [s];
      if |svcs| < MAX_SERVICES {
        svcs := svcs + [s];
      }
    }

    method ChrDiscCb(c: Characteristic)
      modifies this
      ensures State() == OnChar(old(State()), c)
    {
      if !active {
        return;
      }
      seenChrs := seenChrs + [c];
      if c.gp.Some? {
        handles := handles[c.gp.value := c.valHandle];
      }
      if (c.notify || c.indicate) && !c.is16Bit && |notifyChrs| < MAX_NOTIFY_CHRS {
        notifyChrs := notifyChrs + [Subscription((c.valHandle + 1) % 0x1_0000, if c.notify then 1 else 2)];
      }
    }

    method StartCharDiscovery(rcs: seq<bool>, known: bool)
      modifies this
      ensures State() == StartChars(old(State()), rcs, known)
      decreases |svcs| - svcIdx
    {
      if svcIdx >= |svcs| {
        StartCccdSubscriptions(rcs, known);
        return;
      }
      scans := scans + [svcs[svcIdx]];
      if Rc(rcs) {
        proc := Chars;
      } else {
        svcIdx := svcIdx + 1;
        StartCharDiscovery(Rest(rcs), known);
      }
    }

    method StartCccdSubscriptions(rcs: seq<bool>, known: bool)
      modifies this
      ensures State() == StartSubscriptions(old(State()), rcs, known)
    {
      proc := NoProc;
      if |notifyChrs| == 0 {
        if known {
          stored := stored + [handles];
        }
        active := false;
        return;
      }
      notifyIdx := 0;
      writes := writes + [notifyChrs[0]];
      if Rc(rcs) {
        proc := CccdWrite;
      } else {
        active := false;
      }
    }

    method CccdWriteCb(rcs: seq<bool>, known: bool)
      modifies this
      ensures State() == OnWritten(old(State()), rcs, known)
      decreases |notifyChrs| - notifyIdx
    {
      notifyIdx := notifyIdx + 1;
      if notifyIdx < |notifyChrs| {
        writes := writes + [notifyChrs[notifyIdx]];
        if Rc(rcs) {
          proc := CccdWrite;
        } else {
          CccdWriteCb(Rest(rcs), known);
        }
      } else {
        proc := NoProc;
        active := false;
        if known {
          stored := stored + [handles];
          readies := readies + 1;
        }
      }
    }
  }
}
