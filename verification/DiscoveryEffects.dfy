/** What the return codes of the stack do to the traversal of Discovery.dfy: what it grants is waited for, what it
    refuses is passed over, and what comes at the end. */
module DiscoveryEffects {
  import opened Base
  import opened Cameras
  import opened Discovery

  /** The stack takes call number k and refuses those before it. */
  predicate TakesFirst(rcs: seq<bool>, k: nat) { k < |rcs| && rcs[k] && forall j | 0 <= j < k :: !rcs[j] }

  /** The stack refuses the first n calls. */
  predicate Refuses(rcs: seq<bool>, n: nat) { forall j | 0 <= j < n && j < |rcs| :: !rcs[j] }

  /** Whether it takes call number n. */
  predicate Takes(rcs: seq<bool>, n: nat) { n < |rcs| && rcs[n] }

  lemma TakesFirstRest(rcs: seq<bool>, k: nat)
    requires TakesFirst(rcs, k) && k > 0
    ensures !Rc(rcs) && TakesFirst(Rest(rcs), k - 1)
  {
  }

  lemma RefusesRest(rcs: seq<bool>, n: nat)
    requires Refuses(rcs, n) && n > 0
    ensures !Rc(rcs) && Refuses(Rest(rcs), n - 1) && (Takes(Rest(rcs), n - 1) <==> Takes(rcs, n))
  {
  }

  /** How a connection begins, and the events that end discovery. */
  lemma Beginnings(rcs: seq<bool>, d: Disc)
    ensures var b := Begin(rcs);
      && b.proc == (if Takes(rcs, 0) then Mtu else if Takes(rcs, 1) then Services else NoProc)
      && b.svcs == [] && b.chrs == [] && b.handles == map[] && b.readies == 0 && b.stored == []
    ensures d.proc.Mtu? ==> Step(d, MtuDone(rcs)).proc == if Takes(rcs, 0) then Services else NoProc
    ensures d.proc.Services? ==> Step(d, ServicesError) == d.(proc := NoProc, active := false)
    ensures Step(d, Event.Disconnected) == d.(proc := NoProc, active := false)
  {
  }

  // ---- Scanning services ---------------------------------------------------------------------

  lemma {:induction false} ScanGoesTo(d: Disc, rcs: seq<bool>, known: bool, k: nat)
    requires TakesFirst(rcs, k) && d.svcIdx + k < |d.svcs|
    ensures var r := StartChars(d, rcs, known);
      r.proc == Chars && r.svcIdx == d.svcIdx + k && r.readies == d.readies && r.stored == d.stored
    decreases k
  {
    if k == 0 {
    } else {
      TakesFirstRest(rcs, k);
      var asked := d.(scans := d.scans + [d.svcs[d.svcIdx]]);
      ScanGoesTo(asked.(svcIdx := d.svcIdx + 1), Rest(rcs), known, k - 1);
    }
  }

  lemma {:induction false} ScansRunOut(d: Disc, rcs: seq<bool>, known: bool)
    requires d.svcIdx <= |d.svcs| && Refuses(rcs, |d.svcs| - d.svcIdx)
    ensures var r := StartChars(d, rcs, known);
      && r.proc == (if d.chrs != [] && Takes(rcs, |d.svcs| - d.svcIdx) then CccdWrite else NoProc)
      && r.notifyIdx == (if d.chrs != [] then 0 else d.notifyIdx)
      && |r.writes| == |d.writes| + (if d.chrs != [] then 1 else 0) && r.readies == d.readies
      && r.stored == d.stored + if d.chrs == [] && known then [d.handles] else []
    decreases |d.svcs| - d.svcIdx
  {
    if d.svcIdx == |d.svcs| {
      assert d.stored + [] == d.stored;
    } else {
      RefusesRest(rcs, |d.svcs| - d.svcIdx);
      var asked := d.(scans := d.scans + [d.svcs[d.svcIdx]]);
      ScansRunOut(asked.(svcIdx := d.svcIdx + 1), Rest(rcs), known);
    }
  }

  /** Where scanning goes on after the services, or the characteristics of one service. */
  function NextService(d: Disc, e: Event): nat
    requires e.ServicesDone? || e.CharsDone?
  {
    if e.ServicesDone? then d.svcIdx else d.svcIdx + 1
  }

  /** The next service the stack takes is scanned, and those it refuses are passed over. */
  lemma ScanMovesOn(d: Disc, e: Event, k: nat)
    requires Enabled(d, e) && (e.ServicesDone? || e.CharsDone?)
    requires TakesFirst(e.rcs, k) && NextService(d, e) + k < |d.svcs|
    ensures var r := Step(d, e);
      r.proc == Chars && r.svcIdx == NextService(d, e) + k && r.readies == d.readies && r.stored == d.stored
  {
    ScanGoesTo(d.(svcIdx := NextService(d, e)), e.rcs, e.known, k);
  }

  /** With no service left to scan the first descriptor is written, if there is one.  Discovery goes on if the stack
      takes that; without a descriptor the handles are stored all the same. */
  lemma ScanEnds(d: Disc, e: Event)
    requires Inv(d) && Enabled(d, e) && (e.ServicesDone? || e.CharsDone?)
    requires Refuses(e.rcs, |d.svcs| - NextService(d, e))
    ensures var r := Step(d, e);
      && r.proc == (if d.chrs != [] && Takes(e.rcs, |d.svcs| - NextService(d, e)) then CccdWrite else NoProc)
      && |r.writes| == (if d.chrs != [] then 1 else 0) && r.readies == d.readies
      && r.stored == d.stored + if d.chrs == [] && e.known then [d.handles] else []
  {
    ScansRunOut(d.(svcIdx := NextService(d, e)), e.rcs, e.known);
  }

  // ---- Writing descriptors -------------------------------------------------------------------

  lemma {:induction false} WriteGoesTo(d: Disc, rcs: seq<bool>, known: bool, k: nat)
    requires TakesFirst(rcs, k) && d.notifyIdx + 1 + k < |d.chrs|
    ensures var r := OnWritten(d, rcs, known);
      r.proc == CccdWrite && r.notifyIdx == d.notifyIdx + 1 + k && r.readies == d.readies && r.stored == d.stored
    decreases k
  {
    if k == 0 {
    } else {
      TakesFirstRest(rcs, k);
      var i := d.notifyIdx + 1;
      WriteGoesTo(d.(notifyIdx := i, writes := d.writes + [d.chrs[i]]), Rest(rcs), known, k - 1);
    }
  }

  lemma {:induction false} WritesRunOut(d: Disc, rcs: seq<bool>, known: bool)
    requires d.notifyIdx < |d.chrs| && Refuses(rcs, |d.chrs| - d.notifyIdx - 1)
    ensures var r := OnWritten(d, rcs, known);
      && r.proc.NoProc? && |r.writes| == |d.writes| + |d.chrs| - d.notifyIdx - 1
      && r.stored == (d.stored + if known then [d.handles] else [])
      && r.readies == d.readies + if known then 1 else 0
    decreases |d.chrs| - d.notifyIdx
  {
    var i := d.notifyIdx + 1;
    if i == |d.chrs| {
      assert d.stored + [] == d.stored;
    } else {
      RefusesRest(rcs, |d.chrs| - i);
      WritesRunOut(d.(notifyIdx := i, writes := d.writes + [d.chrs[i]]), Rest(rcs), known);
    }
  }

  /** After a descriptor write, whatever its status, the next one the stack takes is awaited, and those it refuses are
      passed over. */
  lemma WriteMovesOn(d: Disc, rcs: seq<bool>, known: bool, k: nat)
    requires d.proc.CccdWrite? && TakesFirst(rcs, k) && d.notifyIdx + 1 + k < |d.chrs|
    ensures var r := Step(d, Written(rcs, known));
      r.proc == CccdWrite && r.notifyIdx == d.notifyIdx + 1 + k && r.readies == d.readies && r.stored == d.stored
  {
    WriteGoesTo(d, rcs, known, k);
  }

  /** With none left all were attempted, the handles are stored and the camera is ready, if it still has a slot. */
  lemma WritesEnd(d: Disc, rcs: seq<bool>, known: bool)
    requires Inv(d) && d.proc.CccdWrite? && Refuses(rcs, |d.chrs| - d.notifyIdx - 1)
    ensures var r := Step(d, Written(rcs, known));
      && r.proc.NoProc? && |r.writes| == |d.chrs|
      && r.stored == (if known then [d.handles] else []) && r.readies == if known then 1 else 0
  {
    WritesRunOut(d, rcs, known);
    assert [] + [d.handles] == [d.handles];
  }
}
