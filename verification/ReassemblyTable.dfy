/** The static context arrays of presets.c and query.c, updated in place, refining the abstract machine. */
module ReassemblyTable {
  import opened Base
  import opened Reassembly

  function Zeros(n: nat): (s: seq<byte>)
    ensures |s| == n
  {
    seq(n, _ => 0)
  }

  /** memset(ctx, 0, sizeof(*ctx)). */
  function Cleared(cap: nat): RxContext { RxContext(false, 0, false, 0, 0, Zeros(cap)) }

  /** A fresh context for connection h. */
  function Claimed(cap: nat, h: nat): RxContext { Cleared(cap).(inUse := true, connHandle := h) }

  /** A context with `data` copied behind what it holds. */
  function Extended(c: RxContext, data: seq<byte>): RxContext
    requires c.filled + |data| <= |c.buf|
  {
    c.(buf := Copy(c.buf, c.filled, data), filled := c.filled + |data|)
  }

  lemma ExtendedHolds(c: RxContext, cap: nat, data: seq<byte>)
    requires ValidContext(c, cap) && c.filled + |data| <= cap
    ensures ValidContext(Extended(c, data), cap)
    ensures PartialOf(Extended(c, data)) == Partial(c.total, PartialOf(c).bytes + data)
  {
  }

  class RxTable {
    const proto: Protocol
    const ctxs: array<RxContext>

    ghost predicate Valid()
      reads ctxs
    {
      ValidTable(ctxs[..], Capacity(proto))
    }

    ghost function Contents(): Contexts
      requires Valid()
      reads ctxs
    {
      View(ctxs[..])
    }

    constructor (proto: Protocol)
      ensures this.proto == proto && Valid() && Contents() == map[]
    {
      this.proto := proto;
      ctxs := new RxContext[MAX_BONDS](_ => Cleared(Capacity(proto)));
    }

    /** find_rx_ctx / find_ctx. */
    method FindCtx(h: nat) returns (r: int)
      ensures r == Find(ctxs[..], h)
    {
      var i := 0;
      while i < ctxs.Length
        invariant 0 <= i <= ctxs.Length
        invariant Find(ctxs[..i], h) < 0
      {
        assert ctxs[..i + 1][..i] == ctxs[..i];
        if ctxs[i].inUse && ctxs[i].connHandle == h {
          FindExtends(ctxs[..i + 1], ctxs[..], h);
          return i;
        }
        i := i + 1;
      }
      assert ctxs[..i] == ctxs[..];
      return -1;
    }

    /** alloc_rx_ctx / alloc_ctx: the context of h, or a free one claimed for it, or -1. */
    method AllocCtx(h: nat) returns (r: int)
      requires Valid()
      modifies ctxs
      ensures -1 <= r < ctxs.Length
      ensures old(Find(ctxs[..], h)) >= 0 ==> r == old(Find(ctxs[..], h)) && ctxs[..] == old(ctxs[..])
      ensures old(Find(ctxs[..], h)) < 0 && r >= 0 ==>
        !old(ctxs[..])[r].inUse && ctxs[..] == old(ctxs[..])[r := Claimed(Capacity(proto), h)]
      ensures r < 0 <==> h !in old(Contents()) && |old(Contents())| >= MAX_BONDS
      ensures r < 0 ==> ctxs[..] == old(ctxs[..])
    {
      ViewGet(ctxs[..], h);
      ViewFull(ctxs[..], Capacity(proto));
      r := FindCtx(h);
      if r >= 0 {
        return;
      }
      var i := 0;
      while i < ctxs.Length
        invariant 0 <= i <= ctxs.Length
        invariant forall k | 0 <= k < i :: ctxs[k].inUse
      {
        if !ctxs[i].inUse {
          ctxs[i] := Claimed(Capacity(proto), h);
          return i;
        }
        i := i + 1;
      }
      return -1;
    }

    /** gopro_presets_free: clear every context carrying the handle, in use or not. */
    method FreeAll(h: nat)
      requires Valid()
      modifies ctxs
      ensures Valid() && Contents() == old(Contents()) - {h}
    {
      var i := 0;
      while i < ctxs.Length
        invariant 0 <= i <= ctxs.Length
        invariant Valid() && Contents() - {h} == old(Contents()) - {h}
        invariant forall k | 0 <= k < i :: !(ctxs[k].inUse && ctxs[k].connHandle == h)
      {
        if ctxs[i].connHandle == h {
          ghost var t := ctxs[..];
          ViewClear(t, i, Cleared(Capacity(proto)), Capacity(proto));
          ctxs[i] := Cleared(Capacity(proto));
          assert ctxs[..] == t[i := Cleared(Capacity(proto))];
        }
        i := i + 1;
      }
      ViewGet(ctxs[..], h);
    }

    /** gopro_query_free: clear the context in use for the handle. */
    method FreeFound(h: nat)
      requires Valid()
      modifies ctxs
      ensures Valid() && Contents() == old(Contents()) - {h}
    {
      ghost var t := ctxs[..];
      var i := FindCtx(h);
      ViewGet(t, h);
      if i >= 0 {
        ViewClear(t, i, Cleared(Capacity(proto)), Capacity(proto));
        ctxs[i] := Cleared(Capacity(proto));
        assert ctxs[..] == t[i := Cleared(Capacity(proto))];
      }
    }

    /** Write context i for connection h. */
    method Store(ghost t: seq<RxContext>, i: nat, c: RxContext)
      requires ValidTable(t, Capacity(proto)) && i < ctxs.Length == |t|
      requires ValidContext(c, Capacity(proto)) && c.inUse
      requires Find(t, c.connHandle) == i || (Find(t, c.connHandle) < 0 && !t[i].inUse)
      requires ctxs[..] == t[i := ctxs[i]]
      modifies ctxs
      ensures Valid() && Contents() == View(t)[c.connHandle := PartialOf(c)]
      ensures ctxs[i] == c && Find(ctxs[..], c.connHandle) == i
    {
      ViewStore(t, i, c, Capacity(proto));
      ctxs[i] := c;
      assert ctxs[..] == t[i := c];
      FindUnique(ctxs[..], i, c.connHandle);
    }

    /** Mark context i free again, leaving its bytes. */
    method GiveBack(ghost t: seq<RxContext>, i: nat)
      requires ValidTable(t, Capacity(proto)) && i < ctxs.Length == |t|
      requires ctxs[..] == t[i := ctxs[i]] && ValidContext(ctxs[i].(inUse := false), Capacity(proto))
      modifies ctxs
      ensures Valid()
      ensures Contents() == if t[i].inUse then View(t) - {t[i].connHandle} else View(t)
    {
      ghost var c := ctxs[i].(inUse := false);
      ViewClear(t, i, c, Capacity(proto));
      ctxs[i] := ctxs[i].(inUse := false);
      assert ctxs[..] == t[i := c];
    }

    /** The first-fragment branch of both handlers: claim a context and put the first payload bytes in it.
        Only presets.c refuses a message longer than its buffer, and then gives the context back. */
    method Start(h: nat, total: nat, payload: seq<byte>)
      requires Valid() && |payload| <= Capacity(proto)
      modifies ctxs
      ensures Valid()
      ensures Contents() ==
        if h !in old(Contents()) && |old(Contents())| >= MAX_BONDS then old(Contents())
        else if proto.Presets? && total > Capacity(proto) then old(Contents()) - {h}
        else old(Contents())[h := Partial(total, payload)]
    {
      ghost var t := ctxs[..];
      ViewGet(t, h);
      var i := AllocCtx(h);
      if i < 0 {
        return;
      }
      assert ctxs[..] == t[i := ctxs[i]];
      FillFirst(t, i, total, payload);
    }

    /** Context i has been claimed for its connection. */
    method FillFirst(ghost t: seq<RxContext>, i: nat, total: nat, payload: seq<byte>)
      requires ValidTable(t, Capacity(proto)) && i < ctxs.Length == |t| && |payload| <= Capacity(proto)
      requires ctxs[..] == t[i := ctxs[i]] && |ctxs[i].buf| == Capacity(proto) && ctxs[i].inUse
      requires ctxs[i].filled <= Capacity(proto)
      requires var h := ctxs[i].connHandle; Find(t, h) == i || (Find(t, h) < 0 && !t[i].inUse)
      modifies ctxs
      ensures Valid()
      ensures Contents() ==
        if proto.Presets? && total > Capacity(proto) then View(t) - {old(ctxs[i].connHandle)}
        else View(t)[old(ctxs[i].connHandle) := Partial(total, payload)]
    {
      if proto.Presets? && total > Capacity(proto) {
        ViewGet(t, ctxs[i].connHandle);
        GiveBack(t, i);
        return;
      }
      var c := ctxs[i].(total := total, assembling := true, filled := 0);
      ExtendedHolds(c, Capacity(proto), payload);
      assert [] + payload == payload;
      Store(t, i, Extended(c, payload));
    }

    /** The continuation branch of both handlers: append what fits. */
    method Continue(h: nat, data: seq<byte>) returns (appended: bool)
      requires Valid() && data != []
      modifies ctxs
      ensures Valid()
      ensures appended <==> h in old(Contents()) && |data| >= 2
      ensures appended ==> |old(Contents())[h].bytes| <= Capacity(proto)
      ensures Contents() == if !appended then old(Contents()) else
        var p := old(Contents())[h];
        old(Contents())[h := Partial(p.total, p.bytes + Take(data[1..], Capacity(proto) - |p.bytes|))]
    {
      ViewGet(ctxs[..], h);
      var i := FindCtx(h);
      if i < 0 || !ctxs[i].assembling || |data| < 2 {
        return false;
      }
      var c := ctxs[i];
      var fragLen := |data| - 1;
      var space := Capacity(proto) - c.filled;
      var copyLen := if fragLen < space then fragLen else space;
      assert data[1..1 + copyLen] == Take(data[1..], space);
      ExtendedHolds(c, Capacity(proto), data[1..1 + copyLen]);
      Store(ctxs[..], i, Extended(c, data[1..1 + copyLen]));
      return true;
    }

    /** The completion check: hand over the message and release the context, or keep waiting. */
    method Finish(h: nat) returns (done: Option<seq<byte>>)
      requires Valid() && h in Contents()
      modifies ctxs
      ensures Valid()
      ensures (Contents(), done) == Completed(old(Contents()), h, old(Contents())[h])
    {
      ViewGet(ctxs[..], h);
      var i := FindCtx(h);
      var c := ctxs[i];
      if c.filled < c.total {
        assert Contents()[h := PartialOf(c)] == Contents();
        return None;
      }
      FreeFound(h);
      return Some(c.buf[..c.filled]);
    }

    /** A first fragment: what Start does, and the completion check. */
    method FirstFragment(h: nat, data: seq<byte>, payload: seq<byte>) returns (done: Option<seq<byte>>)
      requires Valid() && |data| >= 4 && FrameType(data) == 1 && |payload| <= Capacity(proto)
      requires proto.HardwareInfo? ==> data[2] == 0x3C && data[3] == 0
      requires payload == if proto.Presets? then data[2..] else Take(data[2..], Capacity(proto))
      modifies ctxs
      ensures Valid()
      ensures (Contents(), done) == Deliver(ReactionOf(proto), old(Contents()), h, data)
    {
      DeliverStarts(proto, Contents(), h, data, payload);
      CompletedTwice(Contents(), h, Partial(Length13(data), payload));
      Start(h, Length13(data), payload);
      if proto.Presets? && Length13(data) > Capacity(proto) {
        return None;
      }
      done := FinishIfAny(h);
    }

    /** A continuation: what Continue does, and the completion check. */
    method NextFragment(h: nat, data: seq<byte>) returns (done: Option<seq<byte>>)
      requires Valid() && data != [] && (if proto.Presets? then FrameType(data) != 1 else FrameType(data) >= 2)
      modifies ctxs
      ensures Valid()
      ensures (Contents(), done) == Deliver(ReactionOf(proto), old(Contents()), h, data)
    {
      ghost var m := Contents();
      DeliverContinues(proto, m, h, data);
      var appended := Continue(h, data);
      if !appended {
        return None;
      }
      CompletedTwice(m, h, Contents()[h]);
      done := FinishIfAny(h);
    }

    /** gopro_presets_handle_query_fragment; `done` is the payload handed to load_first_video_preset. */
    method HandleQueryFragment(h: nat, data: seq<byte>) returns (done: Option<seq<byte>>)
      requires Valid() && proto.Presets? && 0 < |data| <= MAX_NOTIFY
      modifies ctxs
      ensures Valid()
      ensures (Contents(), done) == Deliver(ReactionOf(proto), old(Contents()), h, data)
    {
      ghost var m := Contents();
      if FrameType(data) == 1 {
        if |data| < 4 {
          DeliverIgnores(proto, m, h, data);
          return None;
        }
        done := FirstFragment(h, data, data[2..]);
      } else {
        done := NextFragment(h, data);
      }
    }

    /** The handler's last search finds no context only if none was free. */
    method FinishIfAny(h: nat) returns (done: Option<seq<byte>>)
      requires Valid()
      modifies ctxs
      ensures Valid()
      ensures h !in old(Contents()) ==> done == None && Contents() == old(Contents())
      ensures h in old(Contents()) ==> (Contents(), done) == Completed(old(Contents()), h, old(Contents())[h])
    {
      ViewGet(ctxs[..], h);
      var i := FindCtx(h);
      if i < 0 {
        return None;
      }
      done := Finish(h);
    }

    /** gopro_query_handle_cmd_response for GetHardwareInfo; `done` is the response handed to the parser. */
    method HandleCmdResponse(h: nat, data: seq<byte>) returns (done: Option<seq<byte>>)
      requires Valid() && proto.HardwareInfo? && 0 < |data| <= MAX_NOTIFY
      modifies ctxs
      ensures Valid()
      ensures (Contents(), done) == Deliver(ReactionOf(proto), old(Contents()), h, data)
    {
      ghost var m := Contents();
      if FrameType(data) >= 2 {
        done := NextFragment(h, data);
      } else {
        var off := FrameType(data) + 1;
        if |data| < off + 2 || data[off] != 0x3C || data[off + 1] != 0 {
          DeliverIgnores(proto, m, h, data);
          return None;
        }
        if FrameType(data) == 0 {
          DeliverIgnores(proto, m, h, data);
          return if |data| > off + 2 then Some(data[off..]) else None;
        }
        var fragLen := |data| - off;
        var copyLen := if fragLen < Capacity(proto) then fragLen else Capacity(proto);
        assert data[off..off + copyLen] == Take(data[2..], Capacity(proto));
        done := FirstFragment(h, data, data[off..off + copyLen]);
      }
    }
  }

  // ---- The abstract machine, branch by branch ------------------------------------------------

  /** The completion check once connection h has collected `p`. */
  function Completed(m: Contexts, h: nat, p: Partial): (Contexts, Option<seq<byte>>) {
    var turn := Collect(p.total, p.bytes, false);
    (Put(m, h, turn.next), turn.done)
  }

  lemma CompletedTwice(m: Contexts, h: nat, p: Partial)
    ensures Completed(m[h := p], h, p) == Completed(m, h, p)
  {
    var next := Collect(p.total, p.bytes, false).next;
    assert Put(m[h := p], h, next) == Put(m, h, next);
  }

  /** A packet the reaction does not collect leaves the table alone. */
  lemma DeliverIgnores(proto: Protocol, m: Contexts, h: nat, data: seq<byte>)
    requires data != []
    requires var turn := React(proto, Get(m, h), data); turn.next == Get(m, h) && !turn.needsContext
    ensures Deliver(ReactionOf(proto), m, h, data) == (m, React(proto, Get(m, h), data).done)
  {
    assert Put(m, h, Get(m, h)) == m;
  }

  lemma DeliverStarts(proto: Protocol, m: Contexts, h: nat, data: seq<byte>, payload: seq<byte>)
    requires |data| >= 4 && FrameType(data) == 1
    requires proto.HardwareInfo? ==> data[2] == 0x3C && data[3] == 0
    requires payload == if proto.Presets? then data[2..] else Take(data[2..], Capacity(proto))
    ensures Deliver(ReactionOf(proto), m, h, data) ==
      if h !in m && |m| >= MAX_BONDS then (m, None)
      else if proto.Presets? && Length13(data) > Capacity(proto) then (m - {h}, None)
      else Completed(m, h, Partial(Length13(data), payload))
  {
  }

  lemma DeliverContinues(proto: Protocol, m: Contexts, h: nat, data: seq<byte>)
    requires data != [] && (if proto.Presets? then FrameType(data) != 1 else FrameType(data) >= 2)
    ensures h !in m || |data| < 2 ==> Deliver(ReactionOf(proto), m, h, data) == (m, None)
    ensures h in m && |data| >= 2 && |m[h].bytes| <= Capacity(proto) ==>
      var p := Partial(m[h].total, m[h].bytes + Take(data[1..], Capacity(proto) - |m[h].bytes|));
      Deliver(ReactionOf(proto), m, h, data) == Completed(m, h, p)
  {
    assert React(proto, Get(m, h), data) == Append(proto, Get(m, h), data);
    if h !in m || |data| < 2 {
      DeliverIgnores(proto, m, h, data);
    }
  }

  lemma {:induction false} FindExtends(s: seq<RxContext>, t: seq<RxContext>, h: nat)
    requires s <= t && Find(s, h) >= 0
    ensures Find(t, h) == Find(s, h)
    decreases |t|
  {
    if |s| < |t| {
      FindExtends(s, t[..|t| - 1], h);
    } else {
      assert s == t;
    }
  }
}
