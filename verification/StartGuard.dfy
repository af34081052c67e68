/** The start-command guard: what one driver context's history keeps, whatever calls it. */
module StartGuard {
  import opened QueryResponses
  import opened Cameras

  /** The events that end a start command's flight: a stop call, a status change into or out of Active, a
      disconnect.  A new driver context starts over. */
  predicate Closes(m: Mark) {
    match m
    case StartSent => false
    case StopCalled => true
    case Changed(before, after) => before == Active || after == Active
    case Dropped => true
    case NewContext => true
  }

  /** A start is in flight: sent, and nothing since then ended it. */
  function InFlight(trace: seq<Mark>): bool {
    if trace == [] then false
    else
      var last := trace[|trace| - 1];
      if last.StartSent? then true else if Closes(last) then false else InFlight(trace[..|trace| - 1])
  }

  /** Between any two start writes there is an event that ended the first one's flight. */
  ghost predicate Separated(trace: seq<Mark>) {
    forall p, q | 0 <= p < q < |trace| && trace[p].StartSent? && trace[q].StartSent? ::
      exists k :: p < k < q && Closes(trace[k])
  }

  /** The invariant of one camera's history: the flag is exactly "a start is in flight". */
  ghost predicate Guarded(c: Camera) {
    && Separated(c.trace)
    && (c.slot.ctx.Some? ==> c.slot.ctx.value.startPending == InFlight(c.trace))
  }

  lemma {:induction false} NotInFlightMeans(trace: seq<Mark>, p: nat)
    requires !InFlight(trace) && p < |trace| && trace[p].StartSent?
    ensures exists k :: p < k < |trace| && Closes(trace[k])
    decreases |trace|
  {
    var n := |trace| - 1;
    if Closes(trace[n]) {
      assert p < n;
    } else {
      NotInFlightMeans(trace[..n], p);
      var k :| p < k < n && Closes(trace[..n][k]);
      assert Closes(trace[k]);
    }
  }

  /** Appending keeps separation, provided a start is only appended when none is in flight. */
  lemma AppendMark(trace: seq<Mark>, m: Mark)
    requires Separated(trace) && (m.StartSent? ==> !InFlight(trace))
    ensures Separated(trace + [m])
    ensures InFlight(trace + [m]) == (m.StartSent? || (!Closes(m) && InFlight(trace)))
  {
    var t := trace + [m];
    assert t[..|t| - 1] == trace;
    forall p, q | 0 <= p < q < |t| && t[p].StartSent? && t[q].StartSent?
      ensures exists k :: p < k < q && Closes(t[k])
    {
      if q < |trace| {
        var k :| p < k < q && Closes(trace[k]);
        assert Closes(t[k]);
      } else {
        NotInFlightMeans(trace, p);
        var k :| p < k < |trace| && Closes(trace[k]);
        assert Closes(t[k]);
      }
    }
  }

  lemma StartKeeps(c: Camera, accept: bool)
    requires Guarded(c) && c.slot.ctx.Some?
    ensures Guarded(StartRecording(c, accept))
  {
    if StartRecording(c, accept) != c {
      AppendMark(c.trace, StartSent);
    }
  }

  lemma StopKeeps(c: Camera)
    requires Guarded(c) && c.slot.ctx.Some?
    ensures Guarded(StopRecording(c))
  {
    AppendMark(c.trace, StopCalled);
  }

  lemma DropKeeps(c: Camera)
    requires Guarded(c)
    ensures Guarded(DropCtx(c))
  {
    AppendMark(c.trace, Dropped);
  }

  lemma NewContextKeeps(c: Camera, s: Slot)
    requires Guarded(c) && s.ctx.Some? && !s.ctx.value.startPending
    ensures Guarded(Camera(s, c.trace + [NewContext]))
  {
    AppendMark(c.trace, NewContext);
  }

  /** A status walk clears the flag exactly at the changes into and out of Active. */
  lemma {:induction false} WalkKeeps(trace: seq<Mark>, p: Progress, flags: seq<bool>)
    requires Separated(trace) && p.startPending == InFlight(trace)
    ensures Separated(trace + ChangeMarks(p, flags))
    ensures ObserveAll(p, flags).startPending == InFlight(trace + ChangeMarks(p, flags))
    decreases |flags|
  {
    if flags == [] {
      assert trace + ChangeMarks(p, flags) == trace;
    } else {
      var q := Observe(p, flags[0]);
      if q.status == p.status {
        assert ChangeMarks(p, flags) == ChangeMarks(q, flags[1..]);
        WalkKeeps(trace, q, flags[1..]);
      } else {
        var m := Changed(p.status, q.status);
        AppendMark(trace, m);
        WalkKeeps(trace + [m], q, flags[1..]);
        assert trace + ChangeMarks(p, flags) == (trace + [m]) + ChangeMarks(q, flags[1..]);
      }
    }
  }

  lemma StatusKeeps(c: Camera, flags: seq<bool>)
    requires Guarded(c)
    ensures Guarded(StatusOne(c, flags))
  {
    if c.slot.ctx.Some? {
      var g := c.slot.ctx.value;
      WalkKeeps(c.trace, Progress(g.status, g.startPending), flags);
    }
  }

  // ---- Recovery ------------------------------------------------------------------------------

  /** A run of ticks on one slot, with the verdict of the write queue at each. */
  function Ticks(c: Camera, accepts: seq<bool>): Camera
    decreases |accepts|
  {
    if accepts == [] then c else Ticks(TickOne(c, accepts[0]), accepts[1..])
  }

  /** Wanted, reachable, with a command handle, and not seen recording. */
  predicate NeedsStart(s: Slot) {
    Reachable(s) && s.desired && HandleOf(s.ctx.value.gatt, GP_CMD) != 0 && s.ctx.value.status != Active
  }

  /** A tick does nothing to a camera but send one start, and that exactly when a start is needed, none is in
      flight and the write is accepted; in particular it never stops one. */
  lemma TickSendsExactly(c: Camera, accept: bool)
    requires Guarded(c)
    ensures TickOne(c, accept).trace == c.trace +
      (if NeedsStart(c.slot) && !InFlight(c.trace) && accept then [StartSent] else [])
    ensures TickOne(c, accept).slot.desired == c.slot.desired && TickOne(c, accept).slot.handle == c.slot.handle
  {
  }

  /** While the camera's status stays as it is, ticks send exactly one start: with the first write that is
      accepted, or none if the guard is up. */
  lemma {:induction false} TicksSendOnce(c: Camera, accepts: seq<bool>)
    requires NeedsStart(c.slot)
    ensures Ticks(c, accepts).trace == c.trace +
      (if !c.slot.ctx.value.startPending && true in accepts then [StartSent] else [])
    decreases |accepts|
  {
    if accepts == [] {
    } else {
      TicksSendOnce(TickOne(c, accepts[0]), accepts[1..]);
      assert accepts == [accepts[0]] + accepts[1..];
    }
  }

  /** A stop command that got lost is not repeated: a camera that should not record, whether it counts as recording
      or not, is left as it is by any number of ticks. */
  lemma {:induction false} StopIsNotRetried(c: Camera, accepts: seq<bool>)
    requires !c.slot.desired
    ensures Ticks(c, accepts) == c
    decreases |accepts|
  {
    if accepts == [] {
    } else {
      StopIsNotRetried(c, accepts[1..]);
    }
  }
}
