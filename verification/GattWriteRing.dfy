/** The 4-entry GATT write ring of ble_gatt_write.c, whose slots are posted by reference to the NimBLE event
    queue.  Reserving a slot is under the lock, posting it is not, so they are two steps; the host task takes
    an event, issues the write and releases the ring's oldest slot. */
module GattWriteRing {
  import opened Base

  const QUEUE_SIZE: nat := 4
  const MAX_LEN: nat := 20

  datatype Write = Write(conn: nat, attr: nat, data: seq<byte>)

  /** gatt_write_entry_t. */
  datatype Entry = Entry(conn: nat, attr: nat, data: seq<byte>, len: nat)

  predicate ValidEntry(e: Entry) { |e.data| == MAX_LEN && e.len <= MAX_LEN }

  /** The write an entry holds now. */
  function Stored(e: Entry): Write
    requires ValidEntry(e)
  {
    Write(e.conn, e.attr, e.data[..e.len])
  }

  /** Fill an entry; bytes beyond the payload stay as they were. */
  function Fill(e: Entry, w: Write): (r: Entry)
    requires ValidEntry(e) && |w.data| <= MAX_LEN
    ensures ValidEntry(r) && Stored(r) == w
  {
    Entry(w.conn, w.attr, w.data + e.data[|w.data|..], |w.data|)
  }

  /** The ring, the slots on their way through it, and the history of writes. */
  datatype Ring = Ring(entries: seq<Entry>, head: nat, tail: nat, count: nat,
                       reserved: seq<nat>, queued: seq<nat>, inHand: seq<nat>,
                       accepted: seq<Write>, delivered: seq<Write>)

  predicate Wellformed(r: Ring) {
    && |r.entries| == QUEUE_SIZE && r.head < QUEUE_SIZE && r.tail < QUEUE_SIZE
    && (forall i | 0 <= i < QUEUE_SIZE :: ValidEntry(r.entries[i]))
    && |r.inHand| <= 1
    && (forall i | 0 <= i < |r.reserved| :: r.reserved[i] < QUEUE_SIZE)
    && (forall i | 0 <= i < |r.queued| :: r.queued[i] < QUEUE_SIZE)
    && (forall i | 0 <= i < |r.inHand| :: r.inHand[i] < QUEUE_SIZE)
  }

  /** Post(k) posts the k-th oldest reservation still waiting. */
  datatype Step = Reserve(w: Write) | Post(k: nat) | Take | Release

  predicate Enabled(r: Ring, s: Step) {
    match s
    case Reserve(_) => true
    case Post(k) => k < |r.reserved|
    case Take => r.inHand == [] && r.queued != []
    case Release => r.inHand != [] && r.count > 0
  }

  predicate Accepts(r: Ring, w: Write) { |w.data| <= MAX_LEN && r.count < QUEUE_SIZE }

  function Next(r: Ring, s: Step): (r': Ring)
    requires Wellformed(r) && Enabled(r, s)
    ensures Wellformed(r')
  {
    match s
    case Reserve(w) =>
      if !Accepts(r, w) then r
      else r.(entries := r.entries[r.head := Fill(r.entries[r.head], w)],
              head := (r.head + 1) % QUEUE_SIZE, count := r.count + 1,
              reserved := r.reserved + [r.head], accepted := r.accepted + [w])
    case Post(k) =>
      r.(reserved := r.reserved[..k] + r.reserved[k + 1..], queued := r.queued + [r.reserved[k]])
    case Take =>
      r.(inHand := [r.queued[0]], queued := r.queued[1..])
    case Release =>
      r.(inHand := [], tail := (r.tail + 1) % QUEUE_SIZE, count := r.count - 1,
         delivered := r.delivered + [Stored(r.entries[r.inHand[0]])])
  }

  // ---- The bounded FIFO ----------------------------------------------------------------------

  /** The slots in hand, queued and reserved, oldest first. */
  function Live(r: Ring): seq<nat> { r.inHand + r.queued + r.reserved }

  function Slot(r: Ring, j: nat): nat { (r.tail + j) % QUEUE_SIZE }

  /** The live slots are tail, tail+1, ..., tail+count-1 modulo 4. */
  ghost predicate Contiguous(r: Ring) {
    && Wellformed(r)
    && r.count <= QUEUE_SIZE && r.head == Slot(r, r.count)
    && |Live(r)| == r.count
    && forall j | 0 <= j < r.count :: Live(r)[j] == Slot(r, j)
  }

  /** The ring holds the accepted writes not yet delivered, and what was delivered is what came first. */
  ghost predicate HoldsTheRest(r: Ring)
    requires Wellformed(r)
  {
    && |r.accepted| == |r.delivered| + r.count
    && r.delivered == r.accepted[..|r.delivered|]
    && forall j | 0 <= j < r.count :: Stored(r.entries[Slot(r, j)]) == r.accepted[|r.delivered| + j]
  }

  /** The ring is a FIFO. */
  ghost predicate Fifo(r: Ring) { Contiguous(r) && HoldsTheRest(r) }

  function Initial(entries: seq<Entry>): Ring { Ring(entries, 0, 0, 0, [], [], [], [], []) }

  /** Posts happen in reservation order. */
  predicate InOrder(s: Step) { s.Post? ==> s.k == 0 }

  lemma SlotsDistinct(r: Ring, i: nat, j: nat)
    requires r.tail < QUEUE_SIZE && i < j < QUEUE_SIZE
    ensures Slot(r, i) != Slot(r, j)
  {
  }

  lemma ReserveKeepsContiguous(r: Ring, w: Write)
    requires Contiguous(r) && Accepts(r, w)
    ensures Contiguous(Next(r, Reserve(w)))
  {
    var r' := Next(r, Reserve(w));
    assert Live(r') == Live(r) + [r.head];
    forall j | 0 <= j < r'.count ensures Live(r')[j] == Slot(r', j) {
      assert Slot(r', j) == Slot(r, j);
      assert j < r.count ==> Live(r')[j] == Live(r)[j];
    }
    HeadAdvances(r.tail, r.count);
  }

  lemma HeadAdvances(tail: nat, count: nat)
    ensures ((tail + count) % QUEUE_SIZE + 1) % QUEUE_SIZE == (tail + (count + 1)) % QUEUE_SIZE
  {
  }

  lemma ReserveKeepsFifo(r: Ring, w: Write)
    requires Fifo(r)
    ensures Fifo(Next(r, Reserve(w)))
  {
    if Accepts(r, w) {
      var r' := Next(r, Reserve(w));
      ReserveKeepsContiguous(r, w);
      forall j | 0 <= j < r'.count
        ensures Stored(r'.entries[Slot(r', j)]) == r'.accepted[|r'.delivered| + j]
      {
        assert Slot(r', j) == Slot(r, j);
        if j < r.count {
          SlotsDistinct(r, j, r.count);
        }
      }
    }
  }

  lemma ReleaseKeepsContiguous(r: Ring)
    requires Contiguous(r) && Enabled(r, Release)
    ensures Contiguous(Next(r, Release)) && r.inHand == [r.tail]
  {
    var r' := Next(r, Release);
    assert Live(r)[0] == Slot(r, 0) == r.tail;
    forall j | 0 <= j <= r'.count ensures Slot(r', j) == Slot(r, j + 1) {
      TailAdvances(r.tail, j);
    }
    assert Live(r') == Live(r)[1..];
  }

  lemma TailAdvances(tail: nat, j: nat)
    ensures ((tail + 1) % QUEUE_SIZE + j) % QUEUE_SIZE == (tail + (j + 1)) % QUEUE_SIZE
  {
  }

  lemma ReleaseKeepsFifo(r: Ring)
    requires Fifo(r) && Enabled(r, Release)
    ensures Fifo(Next(r, Release))
  {
    ReleaseKeepsContiguous(r);
    var r' := Next(r, Release);
    assert Slot(r, 0) == r.tail && r'.delivered == r.delivered + [r.accepted[|r.delivered|]];
    forall j | 0 <= j < r'.count
      ensures Stored(r'.entries[Slot(r', j)]) == r'.accepted[|r'.delivered| + j]
    {
      TailAdvances(r.tail, j);
      assert Slot(r', j) == Slot(r, j + 1);
    }
  }

  lemma TakeKeepsFifo(r: Ring)
    requires Fifo(r) && Enabled(r, Take)
    ensures Fifo(Next(r, Take))
  {
    var r' := Next(r, Take);
    assert Live(r') == Live(r);
    assert forall j :: Slot(r', j) == Slot(r, j);
  }

  /** In a FIFO ring a post keeps it a FIFO exactly when it takes the oldest reservation. */
  lemma PostKeepsFifoIff(r: Ring, k: nat)
    requires Fifo(r) && Enabled(r, Post(k))
    ensures Fifo(Next(r, Post(k))) <==> k == 0
  {
    var r' := Next(r, Post(k));
    if k == 0 {
      assert Live(r') == Live(r);
      assert forall j :: Slot(r', j) == Slot(r, j);
    } else {
      var n := |r.inHand| + |r.queued|;
      assert Live(r')[n] == r.reserved[k] == Live(r)[n + k];
      SlotsDistinct(r, n, n + k);
      assert Live(r')[n] != Slot(r', n);
    }
  }

  lemma StepKeepsFifoIff(r: Ring, s: Step)
    requires Fifo(r) && Enabled(r, s)
    ensures Fifo(Next(r, s)) <==> InOrder(s)
  {
    match s
    case Reserve(w) => ReserveKeepsFifo(r, w);
    case Post(k) => PostKeepsFifoIff(r, k);
    case Take => TakeKeepsFifo(r);
    case Release => ReleaseKeepsFifo(r);
  }

  // ---- Runs ----------------------------------------------------------------------------------

  predicate ValidRun(r: Ring, run: seq<Step>)
    requires Wellformed(r)
    decreases |run|
  {
    run == [] || (Enabled(r, run[0]) && ValidRun(Next(r, run[0]), run[1..]))
  }

  function After(r: Ring, run: seq<Step>): Ring
    requires Wellformed(r) && ValidRun(r, run)
    ensures Wellformed(After(r, run))
    decreases |run|
  {
    if run == [] then r else After(Next(r, run[0]), run[1..])
  }

  /** The ring is a FIFO at every point of the run. */
  ghost predicate FifoThroughout(r: Ring, run: seq<Step>)
    requires Wellformed(r) && ValidRun(r, run)
    decreases |run|
  {
    Fifo(r) && (run == [] || FifoThroughout(Next(r, run[0]), run[1..]))
  }

  /** Main result: over every interleaving of producers and consumer, the ring stays a FIFO exactly when
      every post happens in reservation order. */
  lemma {:induction false} FifoIffInOrder(r: Ring, run: seq<Step>)
    requires Fifo(r) && ValidRun(r, run)
    ensures FifoThroughout(r, run) <==> forall i | 0 <= i < |run| :: InOrder(run[i])
    decreases |run|
  {
    if run == [] {
    } else {
      StepKeepsFifoIff(r, run[0]);
      if InOrder(run[0]) {
        FifoIffInOrder(Next(r, run[0]), run[1..]);
        assert forall i | 1 <= i < |run| :: run[i] == run[1..][i - 1];
      } else if run[1..] != [] {
        assert !Fifo(Next(r, run[0]));
      }
    }
  }

  /** So with posts in order, at the end of any run: deliveries are a prefix of the accepted writes, payloads
      unchanged; an idle ring has delivered everything; and a full ring is the only reason to refuse. */
  lemma {:induction false} InOrderRunsDeliver(r: Ring, run: seq<Step>)
    requires Fifo(r) && ValidRun(r, run) && forall i | 0 <= i < |run| :: InOrder(run[i])
    ensures var r' := After(r, run);
      && r'.delivered <= r'.accepted
      && (Live(r') == [] ==> r'.delivered == r'.accepted)
      && |r'.accepted| - |r'.delivered| == |Live(r')| <= QUEUE_SIZE
      && (forall i, j | 0 <= i < j < |Live(r')| :: Live(r')[i] != Live(r')[j])
    decreases |run|
  {
    if run == [] {
      forall i, j | 0 <= i < j < |Live(r)| ensures Live(r)[i] != Live(r)[j] {
        SlotsDistinct(r, i, j);
      }
    } else {
      StepKeepsFifoIff(r, run[0]);
      assert forall i | 0 <= i < |run[1..]| :: run[1..][i] == run[i + 1];
      InOrderRunsDeliver(Next(r, run[0]), run[1..]);
    }
  }

  // ---- What gets in and what comes out -------------------------------------------------------

  /** A write is accepted exactly if it is at most 20 bytes and fewer than four accepted ones are undelivered. */
  lemma AcceptsWhileRoom(r: Ring, w: Write)
    requires Fifo(r)
    ensures var r' := Next(r, Reserve(w));
      && r'.accepted == r.accepted + (if |w.data| <= 20 && |r.accepted| - |r.delivered| < 4 then [w] else [])
      && r'.delivered == r.delivered
  {
    assert r.accepted + [] == r.accepted;
  }

  /** The producer's or the host's next step, oldest write first. */
  function Service(r: Ring): Step
    requires Live(r) != []
  {
    if r.inHand != [] then Release else if r.queued != [] then Take else Post(0)
  }

  /** Steps a ring still needs for what is live. */
  function Left(r: Ring): nat { 3 * |r.reserved| + 2 * |r.queued| + |r.inHand| }

  lemma ServiceMoves(r: Ring)
    requires Fifo(r) && Live(r) != []
    ensures Enabled(r, Service(r)) && InOrder(Service(r)) && !Service(r).Reserve?
    ensures Fifo(Next(r, Service(r)))
    ensures Left(Next(r, Service(r))) < Left(r) && Next(r, Service(r)).accepted == r.accepted
  {
    assert Enabled(r, Service(r));
    StepKeepsFifoIff(r, Service(r));
  }

  lemma RunCons(r: Ring, s: Step, rest: seq<Step>)
    requires Wellformed(r) && Enabled(r, s) && ValidRun(Next(r, s), rest)
    ensures ValidRun(r, [s] + rest) && After(r, [s] + rest) == After(Next(r, s), rest)
  {
    assert ([s] + rest)[1..] == rest;
  }

  /** No accepted write is lost: left to its producers and the host, in order, a ring delivers all of them. */
  lemma {:induction false} Drains(r: Ring) returns (run: seq<Step>)
    requires Fifo(r)
    ensures ValidRun(r, run)
    ensures forall i | 0 <= i < |run| :: !run[i].Reserve? && InOrder(run[i])
    ensures After(r, run).delivered == After(r, run).accepted == r.accepted && Live(After(r, run)) == []
    decreases Left(r)
  {
    if Live(r) == [] {
      run := [];
    } else {
      ServiceMoves(r);
      var rest := Drains(Next(r, Service(r)));
      RunCons(r, Service(r), rest);
      run := [Service(r)] + rest;
    }
  }

  // ---- Without the ordering assumption -------------------------------------------------------

  /** One step of a run. */
  predicate Steps(r: Ring, s: Step, r': Ring) { Wellformed(r) && Enabled(r, s) && r' == Next(r, s) }

  /** Producers A and B reserve in that order, B posts first, and the host handles B's event.  The slot of A's
      write, still waiting to be posted, is then free as far as the counters say: three more accepted writes
      refill it, and A's write is in no slot any more. */
  lemma OutOfOrderLosesAWrite(entries: seq<Entry>, a: Write, b: Write, c: Write)
    returns (r2: Ring, r3: Ring, r4: Ring, r5: Ring, r6: Ring, r7: Ring, r8: Ring)
    requires Wellformed(Initial(entries)) && a != b && a != c
    requires |a.data| <= MAX_LEN && |b.data| <= MAX_LEN && |c.data| <= MAX_LEN
    ensures Steps(Next(Initial(entries), Reserve(a)), Reserve(b), r2)
    ensures Steps(r2, Post(1), r3) && Steps(r3, Take, r4) && Steps(r4, Release, r5)
    ensures Steps(r5, Reserve(c), r6) && Steps(r6, Reserve(c), r7) && Steps(r7, Reserve(c), r8)
    ensures r8.accepted == [a, b, c, c, c] && r8.delivered == [b]
    ensures forall i | 0 <= i < |Live(r8)| :: Stored(r8.entries[Live(r8)[i]]) != a
  {
    var r1 := Accepted(Initial(entries), a);
    r2 := Accepted(r1, b);
    assert r2.reserved == [0, 1];
    r3, r4, r5 := ThroughTheHost(r2, 1);
    assert r5.reserved == [0];
    r6, r7, r8 := ThreeMore(r5, c);
    assert r8.accepted == [a, b, c, c, c];
  }

  /** With slot 0 still reserved and three free, three more reservations go round to slot 0 again. */
  lemma ThreeMore(r: Ring, c: Write) returns (r1: Ring, r2: Ring, r3: Ring)
    requires Wellformed(r) && |c.data| <= MAX_LEN
    requires r.reserved == [0] && r.queued == r.inHand == [] && r.head == 2 && r.count == 1
    ensures Steps(r, Reserve(c), r1) && Steps(r1, Reserve(c), r2) && Steps(r2, Reserve(c), r3)
    ensures r3.accepted == r.accepted + [c, c, c] && r3.delivered == r.delivered
    ensures Wellformed(r3) && forall i | 0 <= i < |Live(r3)| :: Stored(r3.entries[Live(r3)[i]]) == c
  {
    r1 := Accepted(r, c);
    assert r1.reserved == [0, 2] && r1.head == 3 && Stored(r1.entries[2]) == c;
    r2 := Accepted(r1, c);
    assert r2.reserved == [0, 2, 3] && r2.head == 0 && Stored(r2.entries[3]) == Stored(r2.entries[2]) == c;
    r3 := Accepted(r2, c);
    assert Stored(r3.entries[0]) == Stored(r3.entries[2]) == Stored(r3.entries[3]) == c;
    assert Live(r3) == r3.reserved == [0, 2, 3, 0];
  }

  /** One more write is accepted. */
  lemma Accepted(r: Ring, w: Write) returns (next: Ring)
    requires Wellformed(r) && Accepts(r, w)
    ensures Steps(r, Reserve(w), next) && Wellformed(next)
    ensures next.head == (r.head + 1) % QUEUE_SIZE && next.count == r.count + 1 && next.tail == r.tail
    ensures next.reserved == r.reserved + [r.head] && next.accepted == r.accepted + [w]
    ensures next.queued == r.queued && next.inHand == r.inHand && next.delivered == r.delivered
    ensures Stored(next.entries[r.head]) == w
    ensures forall i | 0 <= i < QUEUE_SIZE && i != r.head :: next.entries[i] == r.entries[i]
  {
    next := Next(r, Reserve(w));
  }

  /** Reservation k is posted to an idle host task, which writes it and releases. */
  lemma ThroughTheHost(r: Ring, k: nat) returns (posted: Ring, taken: Ring, next: Ring)
    requires Wellformed(r) && k < |r.reserved| && r.queued == r.inHand == [] && r.count > 0
    ensures Steps(r, Post(k), posted) && Steps(posted, Take, taken) && Steps(taken, Release, next) && Wellformed(next)
    ensures next.head == r.head && next.count == r.count - 1 && next.entries == r.entries
    ensures next.reserved == r.reserved[..k] + r.reserved[k + 1..] && next.queued == next.inHand == []
    ensures next.accepted == r.accepted && next.delivered == r.delivered + [Stored(r.entries[r.reserved[k]])]
  {
    posted := Next(r, Post(k));
    assert posted.queued == [r.reserved[k]];
    taken := Next(posted, Take);
    next := Next(taken, Release);
  }

  // ---- The ring as the source keeps it -------------------------------------------------------

  datatype Outcome = Ok | InvalidSize | NoMem

  class WriteQueue {
    const entries: array<Entry>
    var head: nat
    var tail: nat
    var count: nat
    var eventQueue: seq<nat>       // events posted to the NimBLE host task, by slot
    ghost var reserved: seq<nat>   // slots held by producers between unlock and post
    ghost var inHand: seq<nat>     // slot the host task is working on
    ghost var accepted: seq<Write>
    ghost var delivered: seq<Write>

    ghost function State(): Ring
      reads this, entries
    {
      Ring(entries[..], head, tail, count, reserved, eventQueue, inHand, accepted, delivered)
    }

    constructor ()
      ensures Fifo(State()) && State() == Initial(entries[..])
    {
      entries := new Entry[QUEUE_SIZE](_ => Entry(0, 0, seq(MAX_LEN, _ => 0), 0));
      head, tail, count, eventQueue := 0, 0, 0, [];
      reserved, inHand, accepted, delivered := [], [], [], [];
    }

    /** ble_core_gatt_write up to portEXIT_CRITICAL. */
    method ReserveSlot(w: Write) returns (err: Outcome, slot: nat)
      requires Wellformed(State())
      modifies this, entries
      ensures Wellformed(State()) && State() == Next(old(State()), Reserve(w))
      ensures err == if |w.data| > MAX_LEN then InvalidSize else if old(count) >= QUEUE_SIZE then NoMem else Ok
      ensures err.Ok? ==> reserved == old(reserved) + [slot]
    {
      slot := head;
      if |w.data| > MAX_LEN {
        return InvalidSize, slot;
      }
      if count >= QUEUE_SIZE {
        return NoMem, slot;
      }
      var e := entries[head];
      entries[head] := Entry(w.conn, w.attr, w.data + e.data[|w.data|..], |w.data|);
      head := (head + 1) % QUEUE_SIZE;
      count := count + 1;
      reserved := reserved + [slot];
      accepted := accepted + [w];
      return Ok, slot;
    }

    /** ble_npl_eventq_put of the producer's own entry. */
    method PostSlot(slot: nat, ghost k: nat)
      requires Wellformed(State()) && k < |reserved| && reserved[k] == slot
      modifies this
      ensures Wellformed(State()) && State() == Next(old(State()), Post(k))
    {
      eventQueue := eventQueue + [slot];
      reserved := reserved[..k] + reserved[k + 1..];
    }

    /** ble_core_gatt_write run without another producer in between. */
    method GattWrite(w: Write) returns (err: Outcome)
      requires Fifo(State()) && reserved == []
      modifies this, entries
      ensures Fifo(State()) && reserved == []
      ensures err.Ok? <==> |w.data| <= MAX_LEN && old(count) < QUEUE_SIZE
      ensures accepted == old(accepted) + if err.Ok? then [w] else []
      ensures delivered == old(delivered)
    {
      ReserveKeepsFifo(State(), w);
      var slot;
      err, slot := ReserveSlot(w);
      if err.Ok? {
        PostKeepsFifoIff(State(), 0);
        PostSlot(slot, 0);
      }
    }

    /** The host task dequeues an event. */
    method TakeEvent() returns (slot: nat)
      requires Wellformed(State()) && Enabled(State(), Take)
      modifies this
      ensures Wellformed(State()) && State() == Next(old(State()), Take)
      ensures inHand == [slot]
    {
      slot := eventQueue[0];
      eventQueue := eventQueue[1..];
      inHand := [slot];
    }

    /** gatt_write_event_cb: issue the write the event points at, then advance the ring. */
    method WriteEvent(slot: nat) returns (w: Write)
      requires Wellformed(State()) && Enabled(State(), Release) && inHand == [slot]
      modifies this
      ensures Wellformed(State()) && State() == Next(old(State()), Release)
      ensures delivered == old(delivered) + [w]
    {
      assert State().inHand[0] == slot;
      var e := entries[slot];
      w := Write(e.conn, e.attr, e.data[..e.len]);
      delivered := delivered + [w];
      inHand := [];
      tail := (tail + 1) % QUEUE_SIZE;
      count := count - 1;
    }
  }
}
