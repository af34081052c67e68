/** The nested Protobuf walk of presets.c: message -> preset group -> preset -> id. */
module PresetDecoder {
  import opened Base
  import opened ProtobufWire

  const PRESET_GROUP_VIDEO: int32 := 1000

  /** Outcome of the whole walk.
      NegativeLength: a length prefix came out negative after the source's cast to `int`.  There the C
      index would move backwards, so the model stops and says so instead of guessing. */
  datatype Search = Found(id: int32) | NotFound | NegativeLength

  /** What the walk over one preset group knows so far. */
  datatype Known = Known(groupId: Option<int32>, presetId: Option<int32>)

  /** One turn of a walk: it ends, meets a negative length, or moves on by `size` bytes. */
  datatype Step<+S> = Stop | Negative | Next(size: nat, state: S)

  /** The length-delimited value at the front of `buf`, measured with the source's cast. */
  function CastLength(buf: seq<byte>): (r: Step<nat>)
    ensures r.Next? ==> 0 < r.state <= r.size <= |buf|
  {
    match ReadVarint(buf)
    case None => Stop
    case Some(len) =>
      var n := ToInt32(len.value);
      if n > |buf| - len.size then Stop
      else if n < 0 then Negative
      else Next(len.size + n, len.size)
  }

  // ---- Innermost: one preset ----------------------------------------------------------------

  /** One field of a preset message; `state` is the id once it is met. */
  function PresetStep(pst: seq<byte>): (r: Step<Option<int32>>)
    ensures r.Next? ==> 0 < r.size <= |pst|
  {
    match ReadVarint(pst)
    case None => Stop
    case Some(tag) =>
      var rest := pst[tag.size..];
      if FieldNumber(tag.value) == 1 && WireType(tag.value) == 0 then
        match ReadVarint(rest)
        case None => Stop
        case Some(id) => Next(tag.size + id.size, Some(ToInt32(id.value)))
      else
        match ValueSize(WireType(tag.value), rest)
        case None => Stop
        case Some(n) => Next(tag.size + n, None)
  }

  /** The first Preset.id in a preset message. */
  function ScanPreset(pst: seq<byte>): Option<int32> {
    var step := PresetStep(pst);
    if !step.Next? then None
    else if step.state.Some? then step.state
    else ScanPreset(pst[step.size..])
  }

  // ---- Middle: one preset group -------------------------------------------------------------

  function GroupStep(grp: seq<byte>, known: Known): (r: Step<Known>)
    ensures r.Next? ==> 0 < r.size <= |grp|
  {
    match ReadVarint(grp)
    case None => Stop
    case Some(tag) =>
      var rest := grp[tag.size..];
      if FieldNumber(tag.value) == 1 && WireType(tag.value) == 0 then
        match ReadVarint(rest)
        case None => Stop
        case Some(id) => Next(tag.size + id.size, known.(groupId := Some(ToInt32(id.value))))
      else if FieldNumber(tag.value) == 2 && WireType(tag.value) == 2 && known.presetId.None? then
        match CastLength(rest)
        case Stop => Stop
        case Negative => Negative
        case Next(n, off) => Next(tag.size + n, known.(presetId := ScanPreset(rest[off..n])))
      else
        match ValueSize(WireType(tag.value), rest)
        case None => Stop
        case Some(n) => Next(tag.size + n, known)
  }

  /** None when a negative length was met, otherwise everything gathered. */
  function ScanGroup(grp: seq<byte>, known: Known): Option<Known> {
    match GroupStep(grp, known)
    case Stop => Some(known)
    case Negative => None
    case Next(n, k) => ScanGroup(grp[n..], k)
  }

  /** The test at the end of parse_preset_group. */
  function Verdict(k: Known, videoId: int32): Option<int32> {
    if k.groupId == Some(videoId) then k.presetId else None
  }

  // ---- Outermost: the message ---------------------------------------------------------------

  function MessageStep(pb: seq<byte>): (r: Step<Option<int32>>)
    ensures r.Next? ==> 0 < r.size <= |pb|
  {
    match ReadVarint(pb)
    case None => Stop
    case Some(tag) =>
      var rest := pb[tag.size..];
      if FieldNumber(tag.value) == 1 && WireType(tag.value) == 2 then
        match CastLength(rest)
        case Stop => Stop
        case Negative => Negative
        case Next(n, off) =>
          match ScanGroup(rest[off..n], Known(None, None))
          case None => Negative
          case Some(k) => Next(tag.size + n, Verdict(k, PRESET_GROUP_VIDEO))
      else
        match ValueSize(WireType(tag.value), rest)
        case None => Stop
        case Some(n) => Next(tag.size + n, None)
  }

  /** The first Video group that yields a preset id. */
  function FindVideo(pb: seq<byte>): Search {
    match MessageStep(pb)
    case Stop => NotFound
    case Negative => NegativeLength
    case Next(n, pid) => if pid.Some? then Found(pid.value) else FindVideo(pb[n..])
  }

  // ---- The loops of the source, refining the three walks -----------------------------------

  method PbValueSize(wireType: nat, buf: seq<byte>) returns (r: Option<nat>)
    ensures r == ValueSize(wireType, buf)
  {
    if wireType == 0 {
      var v := PbReadVarint(buf);
      return if v.Some? then Some(v.value.size) else None;
    } else if wireType == 1 {
      return if |buf| >= 8 then Some(8) else None;
    } else if wireType == 2 {
      var v := PbReadVarint(buf);
      if v.None? || v.value.value > |buf| - v.value.size {
        return None;
      }
      return Some(v.value.size + v.value.value);
    } else if wireType == 5 {
      return if |buf| >= 4 then Some(4) else None;
    }
    return None;
  }

  lemma DropDrop(s: seq<byte>, i: nat, n: nat)
    requires i + n <= |s|
    ensures s[i..][n..] == s[i + n..]
  {
  }

  /** A length prefix, cast and compared as the source does before it enters a nested message. */
  method ReadCastLength(buf: seq<byte>) returns (r: Step<nat>)
    ensures r == CastLength(buf)
  {
    var v := PbReadVarint(buf);
    if v.None? || ToInt32(v.value.value) > |buf| - v.value.size {
      return Stop;
    }
    if ToInt32(v.value.value) < 0 {
      return Negative;
    }
    return Next(v.value.size + ToInt32(v.value.value), v.value.size);
  }

  /** The body of the innermost loop. */
  method PresetTurn(pst: seq<byte>) returns (r: Step<Option<int32>>)
    ensures r == PresetStep(pst)
  {
    var tag := PbReadVarint(pst);
    if tag.None? {
      return Stop;
    }
    var pi := tag.value.size;
    if FieldNumber(tag.value.value) == 1 && WireType(tag.value.value) == 0 {
      var id := PbReadVarint(pst[pi..]);
      return if id.None? then Stop else Next(pi + id.value.size, Some(ToInt32(id.value.value)));
    }
    var size := PbValueSize(WireType(tag.value.value), pst[pi..]);
    return if size.None? then Stop else Next(pi + size.value, None);
  }

  /** The inner loop of parse_preset_group. */
  method FirstPresetId(pst: seq<byte>) returns (pid: Option<int32>)
    ensures pid == ScanPreset(pst)
  {
    ghost var answer := ScanPreset(pst);
    var pi := 0;
    while pi < |pst|
      invariant 0 <= pi <= |pst|
      invariant answer == ScanPreset(pst[pi..])
    {
      var turn := PresetTurn(pst[pi..]);
      if !turn.Next? {
        return None;
      }
      if turn.state.Some? {
        return turn.state;
      }
      DropDrop(pst, pi, turn.size);
      pi := pi + turn.size;
    }
    return None;
  }

  /** The body of the loop of parse_preset_group. */
  method GroupTurn(grp: seq<byte>, known: Known) returns (r: Step<Known>)
    ensures r == GroupStep(grp, known)
  {
    var tag := PbReadVarint(grp);
    if tag.None? {
      return Stop;
    }
    var gi := tag.value.size;
    var fieldNum, wireType := FieldNumber(tag.value.value), WireType(tag.value.value);
    if fieldNum == 1 && wireType == 0 {
      var v := PbReadVarint(grp[gi..]);
      return if v.None? then Stop
             else Next(gi + v.value.size, known.(groupId := Some(ToInt32(v.value.value))));
    } else if fieldNum == 2 && wireType == 2 && known.presetId.None? {
      var len := ReadCastLength(grp[gi..]);
      if !len.Next? {
        return if len.Negative? then Negative else Stop;
      }
      var pid := FirstPresetId(grp[gi..][len.state..len.size]);
      return Next(gi + len.size, known.(presetId := pid));
    }
    var size := PbValueSize(wireType, grp[gi..]);
    return if size.None? then Stop else Next(gi + size.value, known);
  }

  /** parse_preset_group: not ok when a length was negative, otherwise what the group says. */
  method ParsePresetGroup(grp: seq<byte>, videoId: int32) returns (ok: bool, id: Option<int32>)
    ensures ok == ScanGroup(grp, Known(None, None)).Some?
    ensures ok ==> id == Verdict(ScanGroup(grp, Known(None, None)).value, videoId)
  {
    var known := Known(None, None);
    ghost var answer := ScanGroup(grp, known);
    var gi := 0;
    while gi < |grp|
      invariant 0 <= gi <= |grp|
      invariant answer == ScanGroup(grp[gi..], known)
    {
      var turn := GroupTurn(grp[gi..], known);
      if turn.Negative? {
        return false, None;
      }
      if turn.Stop? {
        break;
      }
      DropDrop(grp, gi, turn.size);
      gi := gi + turn.size;
      known := turn.state;
    }
    return true, Verdict(known, videoId);
  }

  /** The body of the loop of find_first_video_preset_id; `state` is the id once a group yields one. */
  method MessageTurn(pb: seq<byte>) returns (r: Step<Option<int32>>)
    ensures r == MessageStep(pb)
  {
    var tag := PbReadVarint(pb);
    if tag.None? {
      return Stop;
    }
    var i := tag.value.size;
    if FieldNumber(tag.value.value) == 1 && WireType(tag.value.value) == 2 {
      var len := ReadCastLength(pb[i..]);
      if !len.Next? {
        return if len.Negative? then Negative else Stop;
      }
      var ok, pid := ParsePresetGroup(pb[i..][len.state..len.size], PRESET_GROUP_VIDEO);
      return if ok then Next(i + len.size, pid) else Negative;
    }
    var size := PbValueSize(WireType(tag.value.value), pb[i..]);
    return if size.None? then Stop else Next(i + size.value, None);
  }

  /** find_first_video_preset_id. */
  method FindFirstVideoPresetId(pb: seq<byte>) returns (r: Search)
    ensures r == FindVideo(pb)
  {
    ghost var answer := FindVideo(pb);
    var i := 0;
    while i < |pb|
      invariant 0 <= i <= |pb|
      invariant answer == FindVideo(pb[i..])
    {
      var turn := MessageTurn(pb[i..]);
      if turn.Negative? {
        return NegativeLength;
      }
      if turn.Stop? {
        break;
      }
      if turn.state.Some? {
        return Found(turn.state.value);
      }
      DropDrop(pb, i, turn.size);
      i := i + turn.size;
    }
    return NotFound;
  }


  // ---- Prefix stability ---------------------------------------------------------------------

  /** A turn that completed inside a prefix is the same turn in every longer buffer. */
  lemma MessageStepPrefix(pb: seq<byte>, more: seq<byte>)
    requires MessageStep(pb).Next?
    ensures MessageStep(pb + more) == MessageStep(pb)
  {
    ReadVarintPrefix(pb, more);
    var tag := ReadVarint(pb).value;
    var rest := pb[tag.size..];
    assert (pb + more)[tag.size..] == rest + more;
    if FieldNumber(tag.value) == 1 && WireType(tag.value) == 2 {
      CastLengthPrefix(rest, more);
    } else {
      ValueSizePrefix(WireType(tag.value), rest, more);
    }
  }

  lemma CastLengthPrefix(buf: seq<byte>, more: seq<byte>)
    requires CastLength(buf).Next?
    ensures CastLength(buf + more) == CastLength(buf)
    ensures var len := CastLength(buf); (buf + more)[len.state..len.size] == buf[len.state..len.size]
  {
    ReadVarintPrefix(buf, more);
  }

  /** For arbitrary bytes: an id found in a prefix stays the answer however the buffer goes on. */
  lemma {:induction false} FoundIsStable(pb: seq<byte>, more: seq<byte>)
    requires FindVideo(pb).Found?
    ensures FindVideo(pb + more) == FindVideo(pb)
    decreases |pb|
  {
    MessageStepPrefix(pb, more);
    var Next(n, pid) := MessageStep(pb);
    if pid.None? {
      assert (pb + more)[n..] == pb[n..] + more;
      FoundIsStable(pb[n..], more);
    }
  }

  // ---- Lengths of 2^31 and more -------------------------------------------------------------

  /** A length prefix the cast makes negative: a varint with bit 31 set. */
  predicate SignBit(buf: seq<byte>) {
    ReadVarint(buf).Some? && ReadVarint(buf).value.value % 0x1_0000_0000 >= 0x8000_0000
  }

  /** What is left to read of a group when a turn begins, and what is known by then. */
  datatype Visit = Visit(left: seq<byte>, known: Known)

  /** Each element of `w` leads to the next. */
  predicate Path<T>(w: seq<T>, next: (T, T) -> bool) {
    w != [] && forall k | 0 <= k < |w| - 1 :: next(w[k], w[k + 1])
  }

  lemma PathCons<T>(v: T, w: seq<T>, next: (T, T) -> bool)
    requires Path(w, next) && next(v, w[0])
    ensures Path([v] + w, next)
  {
  }

  lemma PathTail<T>(w: seq<T>, next: (T, T) -> bool)
    requires Path(w, next) && |w| > 1
    ensures next(w[0], w[1]) && Path(w[1..], next)
  {
    assert forall k | 0 <= k < |w[1..]| :: w[1..][k] == w[k + 1];
  }

  /** One complete turn of the group walk. */
  predicate GroupGoes(v: Visit, next: Visit) {
    var turn := GroupStep(v.left, v.known);
    turn.Next? && next == Visit(v.left[turn.size..], turn.state)
  }

  /** The next field is a preset still to be read, and its length prefix has bit 31 set. */
  predicate NegativePreset(v: Visit) {
    && v.known.presetId.None? && ReadVarint(v.left).Some?
    && var tag := ReadVarint(v.left).value;
       FieldNumber(tag.value) == 2 && WireType(tag.value) == 2 && SignBit(v.left[tag.size..])
  }

  /** Complete turns lead from the beginning of the group to such a prefix. */
  ghost predicate ReachesNegativePreset(grp: seq<byte>, known: Known) {
    exists w :: Path(w, GroupGoes) && w[0] == Visit(grp, known) && NegativePreset(w[|w| - 1])
  }

  lemma {:induction false} GroupReaches(grp: seq<byte>, known: Known) returns (w: seq<Visit>)
    requires ScanGroup(grp, known).None?
    ensures Path(w, GroupGoes) && w[0] == Visit(grp, known) && NegativePreset(w[|w| - 1])
    decreases |grp|
  {
    w := [Visit(grp, known)];
    var turn := GroupStep(grp, known);
    if turn.Next? {
      var rest := GroupReaches(grp[turn.size..], turn.state);
      PathCons(w[0], rest, GroupGoes);
      w := w + rest;
    }
  }

  lemma {:induction false} GroupReached(w: seq<Visit>)
    requires Path(w, GroupGoes) && NegativePreset(w[|w| - 1])
    ensures ScanGroup(w[0].left, w[0].known).None?
    decreases |w|
  {
    if |w| == 1 {
    } else {
      PathTail(w, GroupGoes);
      GroupReached(w[1..]);
    }
  }

  /** One level down: the walk over a group goes wrong exactly when complete turns lead it to a preset whose length
      prefix has bit 31 set. */
  lemma GroupNegativeIff(grp: seq<byte>, known: Known)
    ensures ScanGroup(grp, known).None? <==> ReachesNegativePreset(grp, known)
  {
    if ScanGroup(grp, known).None? {
      var w := GroupReaches(grp, known);
    } else if ReachesNegativePreset(grp, known) {
      var w :| Path(w, GroupGoes) && w[0] == Visit(grp, known) && NegativePreset(w[|w| - 1]);
      GroupReached(w);
    }
  }

  /** One complete turn of the message walk that yields no id, from what is left to what is left then. */
  predicate MessageGoes(left: seq<byte>, next: seq<byte>) {
    var turn := MessageStep(left);
    turn.Next? && turn.state.None? && next == left[turn.size..]
  }

  /** The next field is a group, and either its own length prefix has bit 31 set or that of a preset in it that
      the walk gets to. */
  ghost predicate NegativeGroup(left: seq<byte>) {
    && ReadVarint(left).Some?
    && var tag := ReadVarint(left).value;
       var rest := left[tag.size..];
       && FieldNumber(tag.value) == 1 && WireType(tag.value) == 2
       && (SignBit(rest) ||
           (CastLength(rest).Next? &&
            ReachesNegativePreset(rest[CastLength(rest).state..CastLength(rest).size], Known(None, None))))
  }

  lemma NegativeTurnIff(left: seq<byte>)
    ensures MessageStep(left).Negative? <==> NegativeGroup(left)
  {
    if ReadVarint(left).Some? {
      var rest := left[ReadVarint(left).value.size..];
      if CastLength(rest).Next? {
        GroupNegativeIff(rest[CastLength(rest).state..CastLength(rest).size], Known(None, None));
      }
    }
  }

  lemma {:induction false} MessageReaches(pb: seq<byte>) returns (w: seq<seq<byte>>)
    requires FindVideo(pb) == NegativeLength
    ensures Path(w, MessageGoes) && w[0] == pb && NegativeGroup(w[|w| - 1])
    decreases |pb|
  {
    w := [pb];
    var turn := MessageStep(pb);
    if turn.Next? {
      var rest := MessageReaches(pb[turn.size..]);
      PathCons(pb, rest, MessageGoes);
      w := w + rest;
    } else {
      NegativeTurnIff(pb);
    }
  }

  lemma {:induction false} MessageReached(w: seq<seq<byte>>)
    requires Path(w, MessageGoes) && NegativeGroup(w[|w| - 1])
    ensures FindVideo(w[0]) == NegativeLength
    decreases |w|
  {
    if |w| == 1 {
      NegativeTurnIff(w[0]);
    } else {
      PathTail(w, MessageGoes);
      MessageReached(w[1..]);
    }
  }

  /** Exactly when the walk over received bytes would move backwards: complete turns without an id lead it to a
      length prefix, of a group or of a preset within one, that has bit 31 set. */
  lemma NegativeIff(pb: seq<byte>)
    ensures FindVideo(pb) == NegativeLength <==>
      exists w :: Path(w, MessageGoes) && w[0] == pb && NegativeGroup(w[|w| - 1])
  {
    if FindVideo(pb) == NegativeLength {
      var w := MessageReaches(pb);
    } else if exists w :: Path(w, MessageGoes) && w[0] == pb && NegativeGroup(w[|w| - 1]) {
      var w :| Path(w, MessageGoes) && w[0] == pb && NegativeGroup(w[|w| - 1]);
      MessageReached(w);
    }
  }

  /** Four bytes with the continuation bit and one more, from i on. */
  predicate LongVarintAt(buf: seq<byte>, i: nat) {
    i + 5 <= |buf| && forall k | i <= k < i + 4 :: buf[k] >= 128
  }

  lemma {:induction false} Base128Bound(buf: seq<byte>, i: nat, n: nat)
    requires i <= n <= |buf|
    ensures Base128(buf, i, n) < Pow2(7 * (n - i))
    decreases n - i
  {
    if i == n {
    } else {
      Base128Bound(buf, i + 1, n);
      Pow2Plus7(7 * (n - i - 1));
    }
  }

  /** Bit 31 takes a varint of five bytes or more. */
  lemma SignBitIsLong(buf: seq<byte>)
    requires SignBit(buf)
    ensures LongVarintAt(buf, 0)
  {
    ReadVarintMeaning(buf);
    var n := ReadVarint(buf).value.size;
    if n <= 4 {
      Base128Bound(buf, 0, n);
      Pow2Monotone(7 * n, 28);
      TwoTo28();
      assert false;
    }
  }

  lemma TwoTo28()
    ensures Pow2(28) == 0x1000_0000
  {
    Pow2Plus21(7);
    Pow2Plus7(0);
  }

  lemma LongVarintLifts(buf: seq<byte>, from: nat, to: nat, i: nat)
    requires from <= to <= |buf| && LongVarintAt(buf[from..to], i)
    ensures LongVarintAt(buf, from + i)
  {
    forall k | from + i <= k < from + i + 4 ensures buf[k] >= 128 {
      assert buf[from..to][k - from] == buf[k];
    }
  }

  lemma {:induction false} GroupNegativeIsLong(grp: seq<byte>, known: Known) returns (i: nat)
    requires ScanGroup(grp, known).None?
    ensures i > 0 && LongVarintAt(grp, i)
    decreases |grp|
  {
    var turn := GroupStep(grp, known);
    if turn.Next? {
      var j := GroupNegativeIsLong(grp[turn.size..], turn.state);
      LongVarintLifts(grp, turn.size, |grp|, j);
      i := turn.size + j;
    } else {
      i := ReadVarint(grp).value.size;
      SignBitIsLong(grp[i..]);
      LongVarintLifts(grp, i, |grp|, 0);
    }
  }

  lemma {:induction false} NegativeIsLong(pb: seq<byte>) returns (i: nat)
    requires FindVideo(pb) == NegativeLength
    ensures i > 0 && LongVarintAt(pb, i)
    decreases |pb|
  {
    var turn := MessageStep(pb);
    if turn.Next? {
      var j := NegativeIsLong(pb[turn.size..]);
      LongVarintLifts(pb, turn.size, |pb|, j);
      i := turn.size + j;
    } else {
      i := NegativeTurnIsLong(pb);
    }
  }

  lemma NegativeTurnIsLong(pb: seq<byte>) returns (i: nat)
    requires MessageStep(pb).Negative?
    ensures i > 0 && LongVarintAt(pb, i)
  {
    var n := ReadVarint(pb).value.size;
    var j := NegativeLengthIsLong(pb[n..]);
    LongVarintLifts(pb, n, |pb|, j);
    i := n + j;
  }

  lemma NegativeLengthIsLong(rest: seq<byte>) returns (j: nat)
    requires
      var len := CastLength(rest);
      len.Negative? || (len.Next? && ScanGroup(rest[len.state..len.size], Known(None, None)).None?)
    ensures LongVarintAt(rest, j)
  {
    var len := CastLength(rest);
    if len.Negative? {
      SignBitIsLong(rest);
      j := 0;
    } else {
      var k := GroupNegativeIsLong(rest[len.state..len.size], Known(None, None));
      LongVarintLifts(rest, len.state, len.size, k);
      j := len.state + k;
    }
  }

  /** What a caller can test on the bytes: a message without four successive continuation bytes after its first
      byte and before its last is walked forwards only, and so is any message of less than six bytes. */
  lemma SafeBytes(pb: seq<byte>)
    ensures (forall i | 0 < i < |pb| :: !LongVarintAt(pb, i)) ==> FindVideo(pb) != NegativeLength
    ensures |pb| < 6 ==> FindVideo(pb) != NegativeLength
  {
    if FindVideo(pb) == NegativeLength {
      var i := NegativeIsLong(pb);
    }
  }

  /** Six bytes are enough: a group whose length prefix is 2^31. */
  lemma NegativeLengthExample()
    ensures FindVideo([0x0A, 0x80, 0x80, 0x80, 0x80, 0x08]) == NegativeLength
  {
    var tag, len: seq<byte> := [0x0A], [0x80, 0x80, 0x80, 0x80, 0x08];
    var pb := tag + len;
    assert pb == [0x0A, 0x80, 0x80, 0x80, 0x80, 0x08];
    ReadVarintIs(pb, 1);
    assert Base128(pb, 0, 1) == 10;
    assert pb[1..] == len;
    VarintOfTwo31(len);
    assert CastLength(len) == Negative;
    assert MessageStep(pb) == Negative;
  }

  lemma VarintOfTwo31(s: seq<byte>)
    requires s == [0x80, 0x80, 0x80, 0x80, 0x08]
    ensures ReadVarint(s) == Some(Varint(0x8000_0000, 5))
  {
    ReadVarintIs(s, 5);
    assert Base128(s, 4, 5) == 8;
    assert Base128(s, 3, 5) == 128 * Base128(s, 4, 5);
    assert Base128(s, 2, 5) == 128 * Base128(s, 3, 5);
    assert Base128(s, 1, 5) == 128 * Base128(s, 2, 5);
  }
}
