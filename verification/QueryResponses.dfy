/** Responses on GP-0077 (notify.c): routing, the two ways a preset response arrives, and the status TLV walk. */
module QueryResponses {
  import opened Base
  import opened PresetDecoder
  import opened PresetMessage
  import opened Reassembly

  const PRESET_FEATURE_ID: byte := 0xF5
  const PRESET_ACTION_RESP: byte := 0xF2
  const QUERY_GET_STATUS: byte := 0x13
  const STATUS_ID_ENCODING: byte := 0x08

  // ---- Routing -------------------------------------------------------------------------------

  datatype Route = ToFragment | ToSinglePreset | ToStatus | Ignored

  /** handle_query_response up to the point where a handler takes over. */
  function RouteOf(data: seq<byte>): Route {
    if |data| < 2 then Ignored
    else if FrameType(data) >= 2 then ToFragment
    else
      var off := if FrameType(data) == 0 then 1 else 2;
      if (if |data| > off then data[off] else 0) == PRESET_FEATURE_ID then
        if FrameType(data) == 1 then ToFragment
        else if |data| >= 4 && data[off + 1] == PRESET_ACTION_RESP then ToSinglePreset
        else Ignored
      else if |data| < 6 || data[1] != QUERY_GET_STATUS || data[2] != 0 then Ignored
      else ToStatus
  }

  /** What load_first_video_preset finds in a reassembled payload: feature, action, message. */
  function PresetAnswer(payload: seq<byte>): Search {
    if |payload| >= 2 && payload[0] == PRESET_FEATURE_ID && payload[1] == PRESET_ACTION_RESP
    then FindVideo(payload[2..]) else NotFound
  }

  /** The payload a camera sends for message m. */
  function PresetPayload(m: seq<MessageItem>): seq<byte> {
    [PRESET_FEATURE_ID, PRESET_ACTION_RESP] + Encode(m)
  }

  lemma PresetAnswerMeaning(m: seq<MessageItem>)
    requires ValidMessage(m) && |Encode(m)| < 0x8000_0000
    ensures PresetAnswer(PresetPayload(m)) == VideoPreset(m)
  {
    assert PresetPayload(m)[2..] == Encode(m);
    DecodeInvertsEncode(m);
  }

  /** Every packet of a cut preset response is handed to the reassembler. */
  lemma CutIsRouted(h: nat, c: Cut, i: nat)
    requires ValidCut(c) && c.first[0] == PRESET_FEATURE_ID && i < |CutEvents(h, c)|
    ensures CutEvents(h, c)[i].Packet? && RouteOf(CutEvents(h, c)[i].data) == ToFragment
  {
    if i == 0 {
      var data := FirstPacket(c);
      assert FrameType(data) == 1 && data[2] == c.first[0];
    } else {
      PiecesAreRouted(h, c.pieces, i - 1);
    }
  }

  lemma {:induction false} PiecesAreRouted(h: nat, pieces: seq<Piece>, i: nat)
    requires (forall k | 0 <= k < |pieces| :: ValidPiece(pieces[k])) && i < |pieces|
    ensures PieceEvents(h, pieces)[i].Packet? && RouteOf(PieceEvents(h, pieces)[i].data) == ToFragment
  {
    if i == 0 {
    } else {
      PiecesAreRouted(h, pieces[1..], i - 1);
    }
  }

  /** A payload that is not a preset response gives nothing. */
  lemma OtherPayloadsGiveNothing(payload: seq<byte>)
    requires |payload| < 2 || payload[0] != 0xF5 || payload[1] != 0xF2
    ensures PresetAnswer(payload) == NotFound
  {
  }

  /** Main result for the fragmented path: however the response to message m is cut, and whatever else the
      (up to four) live connections receive in between, connection h completes exactly on the last fragment
      and the id chosen there is the one message m means. */
  lemma PresetStream(w: World, run: seq<Event>, h: nat, before: seq<Event>, c: Cut, after: seq<Event>,
                     m: seq<MessageItem>)
    requires Inv(w) && ValidRun(ReactionOf(Presets), w, run)
    requires ValidMessage(m) && ValidCut(c) && Payload(c) == PresetPayload(m) && |Payload(c)| <= Capacity(Presets)
    requires Own(run, h) == before + CutEvents(h, c) + after
    ensures var past, n := |Alone(ReactionOf(Presets), Get(w.ctx, h), before)|, |CutEvents(h, c)|;
      && past + n <= |Outputs(ReactionOf(Presets), w, run, h)|
      && Outputs(ReactionOf(Presets), w, run, h)[past..past + n] == OnlyAtTheEnd(n, Payload(c))
    ensures PresetAnswer(Payload(c)) == VideoPreset(m)
  {
    StreamCompletes(Presets, w, run, h, before, c, after);
    PresetAnswerMeaning(m);
  }

  lemma SinglePacketRoute(header: byte, body: seq<byte>)
    requires header < 32 && body != []
    ensures var data := [header] + ([PRESET_FEATURE_ID, PRESET_ACTION_RESP] + body);
      RouteOf(data) == ToSinglePreset && data[3..] == body
  {
    var data := [header] + ([PRESET_FEATURE_ID, PRESET_ACTION_RESP] + body);
    assert FrameType(data) == 0 && data[1] == PRESET_FEATURE_ID && data[2] == PRESET_ACTION_RESP;
  }

  /** The single-packet path agrees: same message, same id. */
  lemma SinglePacketAgrees(header: byte, m: seq<MessageItem>)
    requires header < 32 && ValidMessage(m) && Encode(m) != [] && |Encode(m)| < MAX_NOTIFY
    ensures var data := [header] + PresetPayload(m);
      RouteOf(data) == ToSinglePreset && FindVideo(data[3..]) == VideoPreset(m)
  {
    SinglePacketRoute(header, Encode(m));
    DecodeInvertsEncode(m);
  }

  // ---- The status TLV walk -------------------------------------------------------------------

  /** camera_recording_status_t. */
  datatype Recording = Unknown | Idle | Active

  /** The two driver-context fields the walk touches. */
  datatype Progress = Progress(status: Recording, startPending: bool)

  /** One observation of the camera's encoding flag. Only a change into or out of Active clears the guard. */
  function Observe(p: Progress, encoding: bool): Progress {
    var now := if encoding then Active else Idle;
    if now == p.status then p
    else Progress(now, p.startPending && now != Active && p.status != Active)
  }

  function ObserveAll(p: Progress, flags: seq<bool>): Progress
    decreases |flags|
  {
    if flags == [] then p else ObserveAll(Observe(p, flags[0]), flags[1..])
  }

  /** The encoding flags a packed TLV list carries; a truncated entry ends the list. */
  function Flags(tlv: seq<byte>): seq<bool> {
    if |tlv| < 2 || |tlv| < 2 + tlv[1] as int then []
    else
      (if tlv[0] == STATUS_ID_ENCODING && tlv[1] >= 1 then [tlv[2] != 0] else []) + Flags(tlv[2 + tlv[1] as int..])
  }

  /** The status-change branch of handle_query_response. */
  method OnEncodingFlag(p: Progress, value: byte) returns (q: Progress)
    ensures q == Observe(p, value != 0)
  {
    q := p;
    var status := if value != 0 then Active else Idle;
    if p.status != status {
      q := q.(status := status);
      if status == Active {
        q := q.(startPending := false);
      } else if p.status == Active {
        q := q.(startPending := false);
      }
    }
  }

  /** The loop of handle_query_response over a GetStatusValue response. */
  method WalkStatus(data: seq<byte>, before: Progress) returns (p: Progress)
    requires |data| >= 3
    ensures p == ObserveAll(before, Flags(data[3..]))
  {
    p := before;
    ghost var answer := ObserveAll(before, Flags(data[3..]));
    var idx := 3;
    while idx + 2 <= |data|
      invariant 3 <= idx <= |data|
      invariant answer == ObserveAll(p, Flags(data[idx..]))
    {
      ghost var rest := data[idx..];
      var statusId, valueLen := data[idx], data[idx + 1];
      idx := idx + 2;
      if idx + valueLen > |data| {
        break;
      }
      ghost var flags := Flags(data[idx + valueLen..]);
      assert rest[2 + valueLen as int..] == data[idx + valueLen..];
      if statusId == STATUS_ID_ENCODING && valueLen >= 1 {
        assert Flags(rest) == [data[idx] != 0] + flags;
        assert Flags(rest)[1..] == flags;
        p := OnEncodingFlag(p, data[idx]);
      } else {
        assert Flags(rest) == flags;
      }
      idx := idx + valueLen;
    }
  }

  /** One entry of a status response. */
  datatype Entry = Entry(id: byte, value: seq<byte>)

  function EncodeEntries(es: seq<Entry>): seq<byte>
    requires forall i | 0 <= i < |es| :: |es[i].value| < 256
  {
    if es == [] then [] else [es[0].id, |es[0].value|] + es[0].value + EncodeEntries(es[1..])
  }

  /** The encoding flags a list of entries means. */
  function EntryFlags(es: seq<Entry>): seq<bool> {
    if es == [] then []
    else (if es[0].id == STATUS_ID_ENCODING && es[0].value != [] then [es[0].value[0] != 0] else []) + EntryFlags(es[1..])
  }

  /** The walk sees exactly the flags the camera packed, in order, whatever other entries surround them. */
  lemma {:induction false} FlagsOfEntries(es: seq<Entry>)
    requires forall i | 0 <= i < |es| :: |es[i].value| < 256
    ensures Flags(EncodeEntries(es)) == EntryFlags(es)
  {
    if es == [] {
    } else {
      var tlv, e := EncodeEntries(es), es[0];
      assert tlv[1] == |e.value| && tlv[2 + |e.value|..] == EncodeEntries(es[1..]);
      if e.value != [] {
        assert tlv[2] == e.value[0];
      }
      FlagsOfEntries(es[1..]);
    }
  }

  // ---- Which responses are taken for what ----------------------------------------------------

  /** A successful status response reaches the walk, which sees the flags the camera packed. */
  lemma StatusIsRouted(header: byte, es: seq<Entry>)
    requires header < 0x20 && (forall i | 0 <= i < |es| :: |es[i].value| < 256) && |EncodeEntries(es)| >= 3
    ensures var data := [header, 0x13, 0] + EncodeEntries(es);
      RouteOf(data) == ToStatus && Flags(data[3..]) == EntryFlags(es)
  {
    var data := [header, 0x13, 0] + EncodeEntries(es);
    assert data[3..] == EncodeEntries(es) && data[1] == 0x13;
    FlagsOfEntries(es);
  }

  /** An error status, another query, and a packet too short for one entry are ignored; so is another preset action. */
  lemma OthersAreIgnored(data: seq<byte>)
    requires |data| >= 2 && data[0] / 0x20 == 0
    requires if data[1] == 0xF5 then |data| < 4 || data[2] != 0xF2
             else |data| < 6 || data[1] != 0x13 || data[2] != 0
    ensures RouteOf(data) == Ignored
  {
  }
}
