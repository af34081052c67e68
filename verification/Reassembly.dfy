/** Per-connection reassembly of fragmented responses, as presets.c and query.c both do it: an abstract
    machine over a map from connection handles to partial messages, and what holds over its runs. */
module Reassembly {
  import opened Base

  /** Largest notification connection_event_cb passes on. */
  const MAX_NOTIFY: nat := 512

  /** A message being collected: how long it will be, and what has come so far. */
  datatype Partial = Partial(total: nat, bytes: seq<byte>)

  type Contexts = map<nat, Partial>

  /** What one packet does on its own connection: the context left behind, the message it completes, and
      whether the handler asks for a context before doing anything. */
  datatype Turn = Turn(next: Option<Partial>, done: Option<seq<byte>>, needsContext: bool)

  /** The two users of the scheme: presets.c on GP-0077 and query.c on GP-0073. */
  datatype Protocol = Presets | HardwareInfo

  /** sizeof(rx_buf). */
  function Capacity(proto: Protocol): nat { if proto.Presets? then 1024 else 256 }

  function FrameType(data: seq<byte>): nat
    requires data != []
  {
    data[0] / 32
  }

  function Length13(data: seq<byte>): nat
    requires |data| >= 2
  {
    var high: nat := data[0] % 32;
    high * 0x100 + data[1]
  }

  function Take(s: seq<byte>, n: nat): seq<byte> { if |s| <= n then s else s[..n] }

  /** Keep collecting until `total` bytes are there. */
  function Collect(total: nat, bytes: seq<byte>, needsContext: bool): Turn {
    if |bytes| < total then Turn(Some(Partial(total, bytes)), None, needsContext)
    else Turn(None, Some(bytes), needsContext)
  }

  /** Appending never runs past the buffer: what does not fit is dropped. */
  function Append(proto: Protocol, p: Option<Partial>, data: seq<byte>): Turn
    requires data != []
  {
    if p.None? || |data| < 2 then Turn(p, None, false)
    else if |p.value.bytes| > Capacity(proto) then Turn(p, None, false)
    else Collect(p.value.total, p.value.bytes + Take(data[1..], Capacity(proto) - |p.value.bytes|), false)
  }

  /** gopro_presets_handle_query_fragment on one connection. */
  function PresetsReact(p: Option<Partial>, data: seq<byte>): Turn
    requires data != []
  {
    if FrameType(data) != 1 then Append(Presets, p, data)
    else if |data| < 4 then Turn(p, None, false)
    else if Length13(data) > Capacity(Presets) then Turn(None, None, true)
    else Collect(Length13(data), data[2..], true)
  }

  /** gopro_query_handle_cmd_response on one connection; a one-packet response is complete at once. */
  function HardwareInfoReact(p: Option<Partial>, data: seq<byte>): Turn
    requires data != []
  {
    var off := FrameType(data) + 1;
    if FrameType(data) >= 2 then Append(HardwareInfo, p, data)
    else if |data| < off + 2 then Turn(p, None, false)
    else if data[off] != 0x3C || data[off + 1] != 0 then Turn(p, None, false)
    else if FrameType(data) == 0 then Turn(p, if |data| > off + 2 then Some(data[off..]) else None, false)
    else Collect(Length13(data), Take(data[2..], Capacity(HardwareInfo)), true)
  }

  function React(proto: Protocol, p: Option<Partial>, data: seq<byte>): Turn {
    if data == [] then Turn(p, None, false)
    else if proto.Presets? then PresetsReact(p, data) else HardwareInfoReact(p, data)
  }

  function Get(m: Contexts, h: nat): Option<Partial> { if h in m then Some(m[h]) else None }

  function Put(m: Contexts, h: nat, p: Option<Partial>): Contexts {
    if p.Some? then m[h := p.value] else m - {h}
  }

  /** Any way of reacting to packets on one connection. */
  type Reaction = (Option<Partial>, seq<byte>) -> Turn

  /** One packet on the shared table, which has room for MAX_BONDS connections. */
  function Deliver(react: Reaction, m: Contexts, h: nat, data: seq<byte>): (Contexts, Option<seq<byte>>) {
    var turn := react(Get(m, h), data);
    if turn.needsContext && h !in m && |m| >= MAX_BONDS then (m, None)
    else (Put(m, h, turn.next), turn.done)
  }

  // ---- Packets one by one --------------------------------------------------------------------

  /** The length in a 13-bit header: five bits of the first byte, then the second. */
  function HeaderLength(data: seq<byte>): nat
    requires |data| >= 2
  {
    var low: nat := data[1];
    (data[0] % 0x20) * 0x100 + low
  }

  /** `bytes` of a message of `total` bytes are there: it is complete, and the context goes, or it is waited for. */
  predicate Holds(t: Turn, total: nat, bytes: seq<byte>) {
    if |bytes| >= total then t.done == Some(bytes) && t.next == None
    else t.done == None && t.next == Some(Partial(total, bytes))
  }

  /** A first fragment replaces whatever was there; what is longer than the buffer is given up. */
  lemma PresetsStart(p: Option<Partial>, data: seq<byte>)
    requires |data| >= 4 && data[0] / 0x20 == 1
    ensures React(Presets, p, data).needsContext
    ensures var t := React(Presets, p, data);
      if HeaderLength(data) > 1024 then t.next == None && t.done == None
      else Holds(t, HeaderLength(data), data[2..])
  {
  }

  /** The same for GetHardwareInfo, whose header must be there; only 256 bytes are kept. */
  lemma HardwareInfoStart(p: Option<Partial>, data: seq<byte>)
    requires |data| >= 4 && data[0] / 0x20 == 1
    ensures var t := React(Protocol.HardwareInfo, p, data);
      if data[2] == 0x3C && data[3] == 0 then
        t.needsContext && Holds(t, HeaderLength(data), if |data| > 258 then data[2..258] else data[2..])
      else t == Turn(p, None, false)
  {
    assert |data| > 258 ==> data[2..][..256] == data[2..258];
  }

  /** A response in one packet is handed over as it is, and the context stays. */
  lemma HardwareInfoAtOnce(p: Option<Partial>, header: byte, body: seq<byte>)
    requires header < 0x20 && body != []
    ensures React(Protocol.HardwareInfo, p, [header, 0x3C, 0] + body) == Turn(p, Some([0x3C, 0] + body), false)
  {
    var data := [header, 0x3C, 0] + body;
    assert data[1..] == [0x3C, 0] + body;
  }

  /** A continuation adds what fits in the buffer. */
  lemma ContinuationAdds(proto: Protocol, p: Partial, data: seq<byte>)
    requires |data| >= 2 && data[0] / 0x20 >= 2
    requires |p.bytes| <= (if proto.Presets? then 1024 else 256)
    ensures var room := (if proto.Presets? then 1024 else 256) - |p.bytes|;
      && Holds(React(proto, Some(p), data), p.total,
               p.bytes + if |data| - 1 > room then data[1..1 + room] else data[1..])
      && !React(proto, Some(p), data).needsContext
  {
    var room := (if proto.Presets? then 1024 else 256) - |p.bytes|;
    assert |data| - 1 > room ==> data[1..][..room] == data[1..1 + room];
  }

  /** A continuation nobody waits for, and packets too short for their kind, complete and change nothing. */
  lemma StrayPacketsPass(proto: Protocol, p: Option<Partial>, data: seq<byte>)
    requires || data == []
             || (data[0] / 0x20 >= 2 && (p.None? || |data| < 2))
             || (data[0] / 0x20 == 1 && |data| < 4)
             || (proto.HardwareInfo? && data[0] / 0x20 == 0 && |data| < 4)
    ensures React(proto, p, data) == Turn(p, None, false)
  {
  }

  // ---- Runs ----------------------------------------------------------------------------------

  datatype Event = Link(handle: nat) | Packet(handle: nat, data: seq<byte>) | Unlink(handle: nat)

  /** The live connections and the reassembly table. */
  datatype World = World(live: set<nat>, ctx: Contexts)

  /** At most MAX_BONDS links at a time; packets and disconnects only for live links. */
  predicate Enabled(w: World, e: Event) {
    match e
    case Link(h) => h !in w.live && |w.live| < MAX_BONDS
    case Packet(h, data) => h in w.live && 0 < |data| <= MAX_NOTIFY
    case Unlink(h) => h in w.live
  }

  function Step(react: Reaction, w: World, e: Event): (World, Option<seq<byte>>) {
    match e
    case Link(h) => (w.(live := w.live + {h}), None)
    case Packet(h, data) => var (m, done) := Deliver(react, w.ctx, h, data); (w.(ctx := m), done)
    case Unlink(h) => (World(w.live - {h}, w.ctx - {h}), None)
  }

  predicate ValidRun(react: Reaction, w: World, run: seq<Event>)
    decreases |run|
  {
    run == [] || (Enabled(w, run[0]) && ValidRun(react, Step(react, w, run[0]).0, run[1..]))
  }

  /** What the shared table completes on each packet of connection h. */
  function Outputs(react: Reaction, w: World, run: seq<Event>, h: nat): seq<Option<seq<byte>>>
    decreases |run|
  {
    if run == [] then []
    else
      var (w', done) := Step(react, w, run[0]);
      (if run[0].Packet? && run[0].handle == h then [done] else []) + Outputs(react, w', run[1..], h)
  }

  /** The events of connection h, in order. */
  function Own(run: seq<Event>, h: nat): seq<Event> {
    if run == [] then []
    else (if run[0].handle == h then [run[0]] else []) + Own(run[1..], h)
  }

  /** A private reassembler that sees one connection only. */
  function Alone(react: Reaction, p: Option<Partial>, own: seq<Event>): seq<Option<seq<byte>>>
    decreases |own|
  {
    if own == [] then []
    else match own[0]
      case Link(_) => Alone(react, p, own[1..])
      case Unlink(_) => Alone(react, None, own[1..])
      case Packet(_, data) => [react(p, data).done] + Alone(react, react(p, data).next, own[1..])
  }

  /** The private reassembler's context after those events. */
  function AloneAfter(react: Reaction, p: Option<Partial>, own: seq<Event>): Option<Partial>
    decreases |own|
  {
    if own == [] then p
    else match own[0]
      case Link(_) => AloneAfter(react, p, own[1..])
      case Unlink(_) => AloneAfter(react, None, own[1..])
      case Packet(_, data) => AloneAfter(react, react(p, data).next, own[1..])
  }

  /** Contexts belong to live connections, and there are few enough of those. */
  predicate Inv(w: World) {
    w.ctx.Keys <= w.live && |w.live| <= MAX_BONDS
  }

  lemma SubsetSize<T>(a: set<T>, b: set<T>)
    requires a <= b
    ensures |a| <= |b|
  {
    if a != {} {
      var x :| x in a;
      SubsetSize(a - {x}, b - {x});
    }
  }

  /** A live connection always gets a context: it has one already or the table has room. */
  lemma ContextAvailable(w: World, h: nat)
    requires Inv(w) && h in w.live
    ensures h in w.ctx || |w.ctx| < MAX_BONDS
  {
    if h !in w.ctx {
      SubsetSize(w.ctx.Keys, w.live - {h});
      assert |w.ctx| == |w.ctx.Keys|;
    }
  }

  lemma StepKeepsInv(react: Reaction, w: World, e: Event)
    requires Inv(w) && Enabled(w, e)
    ensures Inv(Step(react, w, e).0)
  {
  }

  function After(react: Reaction, w: World, run: seq<Event>): World
    decreases |run|
  {
    if run == [] then w else After(react, Step(react, w, run[0]).0, run[1..])
  }

  lemma {:induction false} RunKeepsInv(react: Reaction, w: World, run: seq<Event>)
    requires Inv(w) && ValidRun(react, w, run)
    ensures Inv(After(react, w, run))
    decreases |run|
  {
    if run == [] {
    } else {
      StepKeepsInv(react, w, run[0]);
      RunKeepsInv(react, Step(react, w, run[0]).0, run[1..]);
    }
  }

  /** Over every run from an empty table, on up to four live links at a time: contexts belong to live connections,
      and whichever live connection asks for one gets it. */
  lemma ContextsNeverRunOut(react: Reaction, run: seq<Event>)
    requires ValidRun(react, World({}, map[]), run)
    ensures var w := After(react, World({}, map[]), run);
      w.ctx.Keys <= w.live && forall h | h in w.live :: h in w.ctx || |w.ctx| < MAX_BONDS
  {
    RunKeepsInv(react, World({}, map[]), run);
    var w := After(react, World({}, map[]), run);
    forall h | h in w.live ensures h in w.ctx || |w.ctx| < MAX_BONDS {
      ContextAvailable(w, h);
    }
  }

  /** One event moves connection h's context exactly as a private reassembler would, and nobody else's. */
  lemma StepIsLocal(react: Reaction, w: World, e: Event, h: nat)
    requires Inv(w) && Enabled(w, e)
    ensures var (w', done) := Step(react, w, e);
      && Get(w'.ctx, h) == (if e.handle == h then AloneAfter(react, Get(w.ctx, h), [e]) else Get(w.ctx, h))
      && (e.Packet? && e.handle == h ==> done == react(Get(w.ctx, h), e.data).done)
  {
    ContextAvailableIfLive(w, e);
    assert [e][1..] == [];
  }

  lemma ContextAvailableIfLive(w: World, e: Event)
    requires Inv(w) && Enabled(w, e)
    ensures e.Packet? ==> e.handle in w.ctx || |w.ctx| < MAX_BONDS
  {
    if e.Packet? {
      ContextAvailable(w, e.handle);
    }
  }

  lemma AloneCons(react: Reaction, p: Option<Partial>, e: Event, rest: seq<Event>)
    ensures Alone(react, p, [e] + rest)
         == (if e.Packet? then [react(p, e.data).done] else []) + Alone(react, AloneAfter(react, p, [e]), rest)
    ensures AloneAfter(react, p, [e] + rest) == AloneAfter(react, AloneAfter(react, p, [e]), rest)
    ensures AloneAfter(react, p, [e])
         == if e.Link? then p else if e.Unlink? then None else react(p, e.data).next
  {
    assert ([e] + rest)[1..] == rest;
    assert [e][1..] == [];
  }

  /** Isolation: for arbitrary packets and any interleaving on up to four live links, what the shared table
      completes for a connection is what a private reassembler would complete for it. */
  lemma {:induction false} Isolation(react: Reaction, w: World, run: seq<Event>, h: nat)
    requires Inv(w) && ValidRun(react, w, run)
    ensures Outputs(react, w, run, h) == Alone(react, Get(w.ctx, h), Own(run, h))
    decreases |run|
  {
    if run == [] {
    } else {
      var e := run[0];
      StepKeepsInv(react, w, e);
      StepIsLocal(react, w, e, h);
      var w' := Step(react, w, e).0;
      Isolation(react, w', run[1..], h);
      assert Own(run, h) == (if e.handle == h then [e] else []) + Own(run[1..], h);
      assert [] + Own(run[1..], h) == Own(run[1..], h);
      assert [] + Outputs(react, w', run[1..], h) == Outputs(react, w', run[1..], h);
      if e.handle == h {
        AloneCons(react, Get(w.ctx, h), e, Own(run[1..], h));
      }
    }
  }

  lemma {:induction false} AloneSplit(react: Reaction, p: Option<Partial>, a: seq<Event>, b: seq<Event>)
    ensures Alone(react, p, a + b) == Alone(react, p, a) + Alone(react, AloneAfter(react, p, a), b)
    decreases |a|
  {
    if a == [] {
      assert a + b == b;
    } else {
      assert a == [a[0]] + a[1..] && a + b == [a[0]] + (a[1..] + b);
      AloneCons(react, p, a[0], a[1..]);
      AloneCons(react, p, a[0], a[1..] + b);
      AloneSplit(react, AloneAfter(react, p, [a[0]]), a[1..], b);
    }
  }

  // ---- Cutting a message into fragments ------------------------------------------------------

  /** A continuation packet: any frame type of two or more, then the chunk. */
  datatype Piece = Piece(header: byte, chunk: seq<byte>)

  predicate ValidPiece(c: Piece) { c.header >= 64 && c.chunk != [] && |c.chunk| < MAX_NOTIFY }

  function Chunks(pieces: seq<Piece>): seq<byte> {
    if pieces == [] then [] else pieces[0].chunk + Chunks(pieces[1..])
  }

  /** A message cut into a first fragment with a 13-bit length header, and continuations. */
  datatype Cut = Cut(first: seq<byte>, pieces: seq<Piece>)

  function Payload(c: Cut): seq<byte> { c.first + Chunks(c.pieces) }

  predicate ValidCut(c: Cut) {
    && 2 <= |c.first| <= MAX_NOTIFY - 2
    && (forall i | 0 <= i < |c.pieces| :: ValidPiece(c.pieces[i]))
    && |Payload(c)| < 0x2000
  }

  function FirstPacket(c: Cut): seq<byte>
    requires ValidCut(c)
  {
    [0x20 + |Payload(c)| / 0x100, |Payload(c)| % 0x100] + c.first
  }

  function PieceEvents(h: nat, pieces: seq<Piece>): (r: seq<Event>)
    ensures |r| == |pieces|
  {
    if pieces == [] then []
    else [Packet(h, [pieces[0].header] + pieces[0].chunk)] + PieceEvents(h, pieces[1..])
  }

  /** The packets a sender puts on connection h. */
  function CutEvents(h: nat, c: Cut): (r: seq<Event>)
    requires ValidCut(c)
    ensures |r| == 1 + |c.pieces|
  {
    [Packet(h, FirstPacket(c))] + PieceEvents(h, c.pieces)
  }

  /** Nothing until the last packet, then the whole message. */
  function OnlyAtTheEnd(n: nat, message: seq<byte>): (r: seq<Option<seq<byte>>>)
    requires n > 0
    ensures |r| == n
  {
    seq(n, i => if i == n - 1 then Some(message) else None)
  }

  /** The first packet is one the protocol starts collecting on. */
  predicate Accepted(proto: Protocol, c: Cut) {
    ValidCut(c) && |Payload(c)| <= Capacity(proto) && (proto.HardwareInfo? ==> c.first[0] == 0x3C && c.first[1] == 0)
  }

  lemma FirstCollects(proto: Protocol, p: Option<Partial>, c: Cut)
    requires Accepted(proto, c)
    ensures React(proto, p, FirstPacket(c)) == Collect(|Payload(c)|, c.first, true)
  {
    var data := FirstPacket(c);
    assert FrameType(data) == 1 && Length13(data) == |Payload(c)|;
    assert data[2..] == c.first;
  }

  lemma PieceCollects(proto: Protocol, p: Partial, c: Piece)
    requires ValidPiece(c) && |p.bytes| + |c.chunk| <= Capacity(proto)
    ensures React(proto, Some(p), [c.header] + c.chunk) == Collect(p.total, p.bytes + c.chunk, false)
  {
    var data := [c.header] + c.chunk;
    assert FrameType(data) >= 2;
    assert data[1..] == c.chunk;
  }

  function ReactionOf(proto: Protocol): Reaction { (p, data) => React(proto, p, data) }

  /** A reaction that keeps collecting continuation packets while they fit in `cap` bytes. */
  ghost predicate KeepsCollecting(react: Reaction, cap: nat) {
    forall p: Partial, c: Piece {:trigger react(Some(p), [c.header] + c.chunk)} |
      ValidPiece(c) && |p.bytes| + |c.chunk| <= cap ::
      react(Some(p), [c.header] + c.chunk) == Collect(p.total, p.bytes + c.chunk, false)
  }

  lemma BothKeepCollecting(proto: Protocol)
    ensures KeepsCollecting(ReactionOf(proto), Capacity(proto))
  {
    forall p: Partial, c: Piece | ValidPiece(c) && |p.bytes| + |c.chunk| <= Capacity(proto)
      ensures ReactionOf(proto)(Some(p), [c.header] + c.chunk) == Collect(p.total, p.bytes + c.chunk, false)
    {
      PieceCollects(proto, p, c);
    }
  }

  lemma {:induction false} PiecesComplete(react: Reaction, cap: nat, h: nat, total: nat, got: seq<byte>,
                                          pieces: seq<Piece>)
    requires KeepsCollecting(react, cap)
    requires pieces != [] && forall i | 0 <= i < |pieces| :: ValidPiece(pieces[i])
    requires |got| + |Chunks(pieces)| == total <= cap
    ensures Alone(react, Some(Partial(total, got)), PieceEvents(h, pieces))
         == OnlyAtTheEnd(|pieces|, got + Chunks(pieces))
    ensures AloneAfter(react, Some(Partial(total, got)), PieceEvents(h, pieces)) == None
    decreases |pieces|
  {
    var c, rest := pieces[0], pieces[1..];
    var p := Some(Partial(total, got));
    assert react(p, [c.header] + c.chunk) == Collect(total, got + c.chunk, false);
    AloneCons(react, p, Packet(h, [c.header] + c.chunk), PieceEvents(h, rest));
    assert got + Chunks(pieces) == (got + c.chunk) + Chunks(rest);
    if rest == [] {
      assert got + Chunks(pieces) == got + c.chunk;
    } else {
      assert rest[0].chunk != [];
      PiecesComplete(react, cap, h, total, got + c.chunk, rest);
    }
  }

  /** One stream on a private reassembler, whatever it held before. */
  lemma CutCompletes(proto: Protocol, h: nat, p: Option<Partial>, c: Cut)
    requires Accepted(proto, c)
    ensures Alone(ReactionOf(proto), p, CutEvents(h, c)) == OnlyAtTheEnd(|CutEvents(h, c)|, Payload(c))
    ensures AloneAfter(ReactionOf(proto), p, CutEvents(h, c)) == None
  {
    FirstCollects(proto, p, c);
    AloneCons(ReactionOf(proto), p, Packet(h, FirstPacket(c)), PieceEvents(h, c.pieces));
    if c.pieces == [] {
      assert Payload(c) == c.first;
    } else {
      assert c.pieces[0].chunk != [];
      BothKeepCollecting(proto);
      PiecesComplete(ReactionOf(proto), Capacity(proto), h, |Payload(c)|, c.first, c.pieces);
    }
  }

  /** Main result: in any run on up to four live links, with any other traffic in between, a message cut in
      any way completes exactly on its own last packet and with exactly its own bytes. */
  lemma StreamCompletes(proto: Protocol, w: World, run: seq<Event>, h: nat,
                        before: seq<Event>, c: Cut, after: seq<Event>)
    requires Inv(w) && ValidRun(ReactionOf(proto), w, run)
    requires Accepted(proto, c)
    requires Own(run, h) == before + CutEvents(h, c) + after
    ensures var past, n := |Alone(ReactionOf(proto), Get(w.ctx, h), before)|, |CutEvents(h, c)|;
      && past + n <= |Outputs(ReactionOf(proto), w, run, h)|
      && Outputs(ReactionOf(proto), w, run, h)[past..past + n] == OnlyAtTheEnd(n, Payload(c))
  {
    Isolation(ReactionOf(proto), w, run, h);
    var p := Get(w.ctx, h);
    AloneSplit(ReactionOf(proto), p, before + CutEvents(h, c), after);
    AloneSplit(ReactionOf(proto), p, before, CutEvents(h, c));
    CutCompletes(proto, h, AloneAfter(ReactionOf(proto), p, before), c);
  }

  // ---- The table as the source stores it -----------------------------------------------------

  /** preset_rx_ctx_t and query_ctx_t. */
  datatype RxContext = RxContext(inUse: bool, connHandle: nat, assembling: bool, total: nat, filled: nat,
                                 buf: seq<byte>)

  predicate ValidContext(c: RxContext, cap: nat) {
    |c.buf| == cap && c.filled <= cap && (c.inUse ==> c.assembling)
  }

  predicate Distinct(t: seq<RxContext>) {
    forall i, j | 0 <= i < j < |t| && t[i].inUse && t[j].inUse :: t[i].connHandle != t[j].connHandle
  }

  predicate ValidTable(t: seq<RxContext>, cap: nat) {
    && |t| == MAX_BONDS
    && (forall i | 0 <= i < |t| :: ValidContext(t[i], cap))
    && Distinct(t)
  }

  function PartialOf(c: RxContext): Partial
    requires c.filled <= |c.buf|
  {
    Partial(c.total, c.buf[..c.filled])
  }

  /** The table as a map from handles to partial messages. */
  ghost function View(t: seq<RxContext>): Contexts
    requires Distinct(t) && forall i | 0 <= i < |t| :: t[i].filled <= |t[i].buf|
  {
    map i | 0 <= i < |t| && t[i].inUse :: t[i].connHandle := PartialOf(t[i])
  }

  /** find_ctx: the context in use for h, or -1. */
  function Find(t: seq<RxContext>, h: nat): (r: int)
    ensures -1 <= r < |t|
    ensures r >= 0 ==> t[r].inUse && t[r].connHandle == h
    ensures r < 0 ==> forall i | 0 <= i < |t| :: !(t[i].inUse && t[i].connHandle == h)
  {
    if t == [] then -1
    else
      var r := Find(t[..|t| - 1], h);
      if r >= 0 then r
      else if t[|t| - 1].inUse && t[|t| - 1].connHandle == h then |t| - 1 else -1
  }

  /** memcpy of `data` into a buffer at `off`. */
  function Copy(buf: seq<byte>, off: nat, data: seq<byte>): (r: seq<byte>)
    requires off + |data| <= |buf|
    ensures |r| == |buf| && r[..off + |data|] == buf[..off] + data
  {
    buf[..off] + data + buf[off + |data|..]
  }

  lemma FindUnique(t: seq<RxContext>, i: nat, h: nat)
    requires Distinct(t) && i < |t| && t[i].inUse && t[i].connHandle == h
    ensures Find(t, h) == i
  {
  }

  lemma ViewGet(t: seq<RxContext>, h: nat)
    requires Distinct(t) && forall i | 0 <= i < |t| :: t[i].filled <= |t[i].buf|
    ensures Get(View(t), h) == if Find(t, h) < 0 then None else Some(PartialOf(t[Find(t, h)]))
  {
  }

  lemma MapsEqual(a: Contexts, b: Contexts)
    requires forall h :: Get(a, h) == Get(b, h)
    ensures a == b
  {
    forall h ensures h in a <==> h in b { assert Get(a, h) == Get(b, h); }
    forall h | h in a ensures a[h] == b[h] { assert Get(a, h) == Get(b, h); }
  }

  lemma DistinctStore(t: seq<RxContext>, i: nat, c: RxContext)
    requires Distinct(t) && i < |t|
    requires c.inUse ==> Find(t, c.connHandle) == i || Find(t, c.connHandle) < 0
    ensures Distinct(t[i := c])
  {
  }

  lemma ViewStore(t: seq<RxContext>, i: nat, c: RxContext, cap: nat)
    requires ValidTable(t, cap) && i < |t| && ValidContext(c, cap) && c.inUse
    requires Find(t, c.connHandle) == i || (Find(t, c.connHandle) < 0 && !t[i].inUse)
    ensures ValidTable(t[i := c], cap)
    ensures View(t[i := c]) == View(t)[c.connHandle := PartialOf(c)]
  {
    var t' := t[i := c];
    DistinctStore(t, i, c);
    var target := View(t)[c.connHandle := PartialOf(c)];
    forall h ensures Get(View(t'), h) == Get(target, h) {
      ViewGet(t, h);
      ViewGet(t', h);
      if h == c.connHandle {
        FindUnique(t', i, h);
      } else if Find(t, h) >= 0 {
        FindUnique(t', Find(t, h), h);
      } else {
        assert Find(t', h) < 0;
      }
    }
    MapsEqual(View(t'), target);
  }

  /** Freeing context i takes away its handle and nothing else. */
  lemma ClearGet(t: seq<RxContext>, i: nat, c: RxContext, h: nat)
    requires Distinct(t) && i < |t| && !c.inUse
    ensures var gone := t[i].inUse && h == t[i].connHandle;
      if gone || Find(t, h) < 0 then Find(t[i := c], h) < 0
      else Find(t[i := c], h) == Find(t, h) != i
  {
    var t' := t[i := c];
    DistinctStore(t, i, c);
    if Find(t, h) >= 0 && Find(t, h) != i {
      FindUnique(t', Find(t, h), h);
    } else if t[i].inUse && h == t[i].connHandle {
      FindUnique(t, i, h);
    }
  }

  lemma ViewClear(t: seq<RxContext>, i: nat, c: RxContext, cap: nat)
    requires ValidTable(t, cap) && i < |t| && ValidContext(c, cap) && !c.inUse
    ensures ValidTable(t[i := c], cap)
    ensures View(t[i := c]) == if t[i].inUse then View(t) - {t[i].connHandle} else View(t)
  {
    var t' := t[i := c];
    DistinctStore(t, i, c);
    var target := if t[i].inUse then View(t) - {t[i].connHandle} else View(t);
    forall h ensures Get(View(t'), h) == Get(target, h) {
      ViewClearAt(t, i, c, cap, h);
    }
    MapsEqual(View(t'), target);
  }

  lemma ViewClearAt(t: seq<RxContext>, i: nat, c: RxContext, cap: nat, h: nat)
    requires ValidTable(t, cap) && i < |t| && ValidTable(t[i := c], cap) && !c.inUse
    ensures Get(View(t[i := c]), h) == if t[i].inUse && h == t[i].connHandle then None else Get(View(t), h)
  {
    ClearGet(t, i, c, h);
    ViewGet(t, h);
    ViewGet(t[i := c], h);
  }

  /** The view is full exactly when no context is free. */
  lemma ViewFull(t: seq<RxContext>, cap: nat)
    requires ValidTable(t, cap)
    ensures |View(t)| >= MAX_BONDS <==> forall i | 0 <= i < |t| :: t[i].inUse
  {
    if forall i | 0 <= i < |t| :: t[i].inUse {
      AllInUse(t, cap);
    } else {
      var k :| 0 <= k < |t| && !t[k].inUse;
      OneFree(t, cap, k);
    }
  }

  lemma AllInUse(t: seq<RxContext>, cap: nat)
    requires ValidTable(t, cap) && forall i | 0 <= i < |t| :: t[i].inUse
    ensures |View(t)| >= MAX_BONDS
  {
    var keys := View(t).Keys;
    var hs := seq(|t|, i requires 0 <= i < |t| => t[i].connHandle);
    forall i | 0 <= i < |t| ensures hs[i] in keys {
      FindUnique(t, i, hs[i]);
      ViewGet(t, hs[i]);
    }
    DistinctFits(hs, keys);
    assert |View(t)| == |keys|;
  }

  lemma OneFree(t: seq<RxContext>, cap: nat, k: nat)
    requires ValidTable(t, cap) && k < |t| && !t[k].inUse
    ensures |View(t)| < MAX_BONDS
  {
    var keys := View(t).Keys;
    var others := Indices(|t|) - {k};
    forall h | h in keys ensures exists i | i in others :: t[i].connHandle == h {
      ViewGet(t, h);
      assert Find(t, h) in others;
    }
    KeysFit(t, keys, others);
  }

  function Indices(n: nat): (s: set<int>)
    ensures |s| == n && forall i :: i in s <==> 0 <= i < n
  {
    if n == 0 then {} else Indices(n - 1) + {n - 1}
  }

  lemma {:induction false} KeysFit(t: seq<RxContext>, keys: set<nat>, slots: set<int>)
    requires forall i | i in slots :: 0 <= i < |t|
    requires forall h | h in keys :: exists i | i in slots :: t[i].connHandle == h
    ensures |keys| <= |slots|
    decreases slots
  {
    if keys == {} {
    } else {
      var h :| h in keys;
      var i :| i in slots && t[i].connHandle == h;
      forall g | g in keys - {h} ensures exists j | j in slots - {i} :: t[j].connHandle == g {
        var j :| j in slots && t[j].connHandle == g;
        assert j in slots - {i};
      }
      KeysFit(t, keys - {h}, slots - {i});
    }
  }
}
