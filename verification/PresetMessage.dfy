/** The NotifyPresetStatus message as its sender sees it, and the proof that the decoder inverts the encoding. */
module PresetMessage {
  import opened Base
  import opened ProtobufWire
  import opened PresetDecoder

  /** Any field of a wire type the decoder can skip: 0, 1, 2 or 5. */
  datatype Field = Scalar(num: nat, value: nat) | Fixed64(num: nat, bytes: seq<byte>)
                 | Delimited(num: nat, bytes: seq<byte>) | Fixed32(num: nat, bytes: seq<byte>)

  datatype PresetItem = PresetId(id: int32) | PresetOther(field: Field)
  datatype GroupItem = GroupId(id: int32) | Preset(items: seq<PresetItem>) | GroupOther(field: Field)
  datatype MessageItem = PresetGroup(items: seq<GroupItem>) | MessageOther(field: Field)

  // ---- Meaning: which id the message asks for ------------------------------------------------

  /** The first id in a preset. */
  function IdOfPreset(items: seq<PresetItem>): Option<int32> {
    if items == [] then None
    else if items[0].PresetId? then Some(items[0].id)
    else IdOfPreset(items[1..])
  }

  /** The id of the first preset that has one. */
  function FirstId(items: seq<GroupItem>): Option<int32> {
    if items == [] then None
    else if items[0].Preset? && IdOfPreset(items[0].items).Some? then IdOfPreset(items[0].items)
    else FirstId(items[1..])
  }

  /** The last group id. */
  function LastGroupId(items: seq<GroupItem>): Option<int32> {
    if items == [] then None
    else if items[|items| - 1].GroupId? then Some(items[|items| - 1].id)
    else LastGroupId(items[..|items| - 1])
  }

  function IsVideoGroupWithId(item: MessageItem): bool {
    item.PresetGroup? && LastGroupId(item.items) == Some(PRESET_GROUP_VIDEO) && FirstId(item.items).Some?
  }

  /** The first id-bearing preset of the first Video group that has one. */
  function VideoPreset(m: seq<MessageItem>): Search {
    if m == [] then NotFound
    else if IsVideoGroupWithId(m[0]) then Found(FirstId(m[0].items).value)
    else VideoPreset(m[1..])
  }

  // ---- Encoding ------------------------------------------------------------------------------

  function FieldWireType(f: Field): nat {
    match f
    case Scalar(_, _) => 0
    case Fixed64(_, _) => 1
    case Delimited(_, _) => 2
    case Fixed32(_, _) => 5
  }

  function EncodeBody(f: Field): seq<byte> {
    match f
    case Scalar(_, v) => EncodeVarint(v)
    case Delimited(_, b) => EncodeVarint(|b|) + b
    case Fixed64(_, b) => b
    case Fixed32(_, b) => b
  }

  function Tag(f: Field): nat { 8 * f.num + FieldWireType(f) }

  function EncodeField(f: Field): seq<byte> { EncodeVarint(Tag(f)) + EncodeBody(f) }

  /** An int32 is sent sign-extended to 64 bits. */
  function SignExtend(id: int32): nat { if id >= 0 then id else id + TWO_64 }

  function PresetField(item: PresetItem): Field {
    match item
    case PresetId(id) => Scalar(1, SignExtend(id))
    case PresetOther(f) => f
  }

  function EncodePreset(items: seq<PresetItem>): seq<byte> {
    if items == [] then [] else EncodeField(PresetField(items[0])) + EncodePreset(items[1..])
  }

  function GroupField(item: GroupItem): Field {
    match item
    case GroupId(id) => Scalar(1, SignExtend(id))
    case Preset(p) => Delimited(2, EncodePreset(p))
    case GroupOther(f) => f
  }

  function EncodeGroup(items: seq<GroupItem>): seq<byte> {
    if items == [] then [] else EncodeField(GroupField(items[0])) + EncodeGroup(items[1..])
  }

  function MessageField(item: MessageItem): Field {
    match item
    case PresetGroup(g) => Delimited(1, EncodeGroup(g))
    case MessageOther(f) => f
  }

  function Encode(m: seq<MessageItem>): seq<byte> {
    if m == [] then [] else EncodeField(MessageField(m[0])) + Encode(m[1..])
  }

  // ---- Well-formed messages ------------------------------------------------------------------

  /** Field numbers are 29 bits wide; scalars are 64-bit; fixed fields have their size. */
  predicate ValidField(f: Field) {
    && f.num < 0x2000_0000
    && match f
       case Scalar(_, v) => v < TWO_64
       case Fixed64(_, b) => |b| == 8
       case Delimited(_, b) => true
       case Fixed32(_, b) => |b| == 4
  }

  /** At each level an "other" field is any valid field but the ones that level gives a meaning to. */
  predicate ValidPreset(items: seq<PresetItem>) {
    forall i | 0 <= i < |items| && items[i].PresetOther? ::
      ValidField(items[i].field) && !(items[i].field.num == 1 && items[i].field.Scalar?)
  }

  predicate ValidGroupItem(item: GroupItem) {
    match item
    case GroupId(_) => true
    case Preset(p) => ValidPreset(p)
    case GroupOther(f) => ValidField(f) && !(f.num == 1 && f.Scalar?) && !(f.num == 2 && f.Delimited?)
  }

  predicate ValidGroup(items: seq<GroupItem>) {
    forall i | 0 <= i < |items| :: ValidGroupItem(items[i])
  }

  predicate ValidMessageItem(item: MessageItem) {
    match item
    case PresetGroup(g) => ValidGroup(g)
    case MessageOther(f) => ValidField(f) && !(f.num == 1 && f.Delimited?)
  }

  predicate ValidMessage(m: seq<MessageItem>) {
    forall i | 0 <= i < |m| :: ValidMessageItem(m[i])
  }

  // ---- Decoding inverts encoding -------------------------------------------------------------

  lemma SignExtendRoundTrip(id: int32)
    ensures SignExtend(id) < TWO_64 && ToInt32(SignExtend(id)) == id
  {
  }

  /** The tag of an encoded field reads back and leaves the body. */
  lemma TagReads(f: Field, rest: seq<byte>)
    requires ValidField(f)
    ensures ReadVarint(EncodeField(f) + rest) == Some(Varint(Tag(f), |EncodeVarint(Tag(f))|))
    ensures WireType(Tag(f)) == FieldWireType(f) && FieldNumber(Tag(f)) == f.num
    ensures (EncodeField(f) + rest)[|EncodeVarint(Tag(f))|..] == EncodeBody(f) + rest
  {
    var tag, body := EncodeVarint(Tag(f)), EncodeBody(f);
    TagParts(f.num, FieldWireType(f));
    PrependDrop(tag, body, rest);
    VarintRoundTrip(Tag(f), body + rest);
  }

  lemma TagParts(num: nat, wireType: nat)
    requires num < 0x2000_0000 && wireType < 8
    ensures WireType(8 * num + wireType) == wireType && FieldNumber(8 * num + wireType) == num
  {
  }

  lemma PrependDrop(a: seq<byte>, b: seq<byte>, c: seq<byte>)
    ensures (a + b) + c == a + (b + c) && ((a + b) + c)[|a|..] == b + c
  {
  }

  /** The body of an encoded field is skipped whole. */
  lemma BodySkips(f: Field, rest: seq<byte>)
    requires ValidField(f) && |EncodeBody(f)| < 0x8000_0000
    ensures ValueSize(FieldWireType(f), EncodeBody(f) + rest) == Some(|EncodeBody(f)|)
    ensures f.Scalar? ==> ReadVarint(EncodeBody(f) + rest) == Some(Varint(f.value, |EncodeBody(f)|))
  {
    match f
    case Scalar(_, v) => VarintRoundTrip(v, rest);
    case Delimited(_, b) => DelimitedSkips(b, rest);
    case Fixed64(_, b) =>
    case Fixed32(_, b) =>
  }

  lemma FieldReads(f: Field, rest: seq<byte>)
    requires ValidField(f) && |EncodeField(f)| < 0x8000_0000
    ensures ReadVarint(EncodeField(f) + rest) == Some(Varint(Tag(f), |EncodeVarint(Tag(f))|))
    ensures WireType(Tag(f)) == FieldWireType(f) && FieldNumber(Tag(f)) == f.num
    ensures (EncodeField(f) + rest)[|EncodeVarint(Tag(f))|..] == EncodeBody(f) + rest
    ensures |EncodeField(f)| == |EncodeVarint(Tag(f))| + |EncodeBody(f)|
    ensures ValueSize(FieldWireType(f), EncodeBody(f) + rest) == Some(|EncodeBody(f)|)
    ensures f.Scalar? ==> ReadVarint(EncodeBody(f) + rest) == Some(Varint(f.value, |EncodeBody(f)|))
  {
    TagReads(f, rest);
    BodySkips(f, rest);
  }

  lemma LengthReads(b: seq<byte>, rest: seq<byte>)
    requires |b| < 0x8000_0000
    ensures ReadVarint((EncodeVarint(|b|) + b) + rest) == Some(Varint(|b|, |EncodeVarint(|b|)|))
  {
    var len := EncodeVarint(|b|);
    assert (len + b) + rest == len + (b + rest);
    VarintRoundTrip(|b|, b + rest);
  }

  lemma DelimitedSkips(b: seq<byte>, rest: seq<byte>)
    requires |b| < 0x8000_0000
    ensures ValueSize(2, (EncodeVarint(|b|) + b) + rest) == Some(|EncodeVarint(|b|) + b|)
  {
    LengthReads(b, rest);
  }

  lemma MiddleSlice(a: seq<byte>, b: seq<byte>, c: seq<byte>)
    ensures ((a + b) + c)[|a|..|a + b|] == b
  {
  }

  lemma DelimitedReads(b: seq<byte>, rest: seq<byte>)
    requires |b| < 0x8000_0000
    ensures CastLength((EncodeVarint(|b|) + b) + rest) == Next(|EncodeVarint(|b|) + b|, |EncodeVarint(|b|)|)
    ensures ((EncodeVarint(|b|) + b) + rest)[|EncodeVarint(|b|)|..|EncodeVarint(|b|) + b|] == b
  {
    LengthReads(b, rest);
    CastLengthIs((EncodeVarint(|b|) + b) + rest, |b|, |EncodeVarint(|b|)|);
    MiddleSlice(EncodeVarint(|b|), b, rest);
  }

  /** The cast does no harm below 2^31. */
  lemma CastLengthIs(buf: seq<byte>, len: nat, size: nat)
    requires ReadVarint(buf) == Some(Varint(len, size)) && len < 0x8000_0000 && size + len <= |buf|
    ensures CastLength(buf) == Next(size + len, size)
  {
  }

  lemma PresetTurnReads(item: PresetItem, rest: seq<byte>)
    requires ValidPreset([item]) && |EncodeField(PresetField(item))| < 0x8000_0000
    ensures PresetStep(EncodeField(PresetField(item)) + rest)
         == Next(|EncodeField(PresetField(item))|, if item.PresetId? then Some(item.id) else None)
  {
    if item.PresetId? {
      SignExtendRoundTrip(item.id);
    } else {
      assert ValidField([item][0].field) && !([item][0].field.num == 1 && [item][0].field.Scalar?);
    }
    FieldReads(PresetField(item), rest);
  }

  /** A preset followed by anything: its first id, or else what the rest gives. */
  lemma {:induction false} PresetThenRest(items: seq<PresetItem>, rest: seq<byte>)
    requires ValidPreset(items) && |EncodePreset(items)| < 0x8000_0000
    ensures ScanPreset(EncodePreset(items) + rest)
         == if IdOfPreset(items).Some? then IdOfPreset(items) else ScanPreset(rest)
  {
    if items == [] {
      assert EncodePreset(items) + rest == rest;
    } else {
      PresetTurnReads(items[0], EncodePreset(items[1..]) + rest);
      PrependDrop(EncodeField(PresetField(items[0])), EncodePreset(items[1..]), rest);
      if items[0].PresetOther? {
        PresetThenRest(items[1..], rest);
      }
    }
  }

  lemma PresetRoundTrip(items: seq<PresetItem>)
    requires ValidPreset(items) && |EncodePreset(items)| < 0x8000_0000
    ensures ScanPreset(EncodePreset(items)) == IdOfPreset(items)
  {
    PresetThenRest(items, []);
    assert EncodePreset(items) + [] == EncodePreset(items);
  }

  /** What a group item adds to what the walk knows. */
  function Learn(known: Known, item: GroupItem): Known {
    match item
    case GroupId(id) => known.(groupId := Some(id))
    case Preset(p) => if known.presetId.None? then known.(presetId := IdOfPreset(p)) else known
    case GroupOther(_) => known
  }

  lemma GroupTurnReads(item: GroupItem, rest: seq<byte>, known: Known)
    requires ValidGroupItem(item) && |EncodeField(GroupField(item))| < 0x8000_0000
    ensures GroupStep(EncodeField(GroupField(item)) + rest, known)
         == Next(|EncodeField(GroupField(item))|, Learn(known, item))
  {
    var f := GroupField(item);
    match item
    case GroupId(id) =>
      SignExtendRoundTrip(id);
      FieldReads(f, rest);
    case Preset(p) =>
      FieldReads(f, rest);
      DelimitedReads(EncodePreset(p), rest);
      PresetRoundTrip(p);
    case GroupOther(g) =>
      FieldReads(f, rest);
  }

  lemma {:induction false} LastGroupIdCons(items: seq<GroupItem>)
    requires items != []
    ensures LastGroupId(items) == if LastGroupId(items[1..]).Some? then LastGroupId(items[1..])
                                  else if items[0].GroupId? then Some(items[0].id) else None
  {
    var n := |items|;
    if n == 1 {
      assert items[..0] == [];
    } else {
      LastGroupIdCons(items[..n - 1]);
      assert items[..n - 1][1..] == items[1..][..n - 2];
      assert items[1..][n - 2] == items[n - 1];
    }
  }

  /** What is known after a group's items: the last group id, and the first preset id. */
  function KnownAfter(items: seq<GroupItem>, known: Known): Known {
    Known(if LastGroupId(items).Some? then LastGroupId(items) else known.groupId,
          if known.presetId.Some? then known.presetId else FirstId(items))
  }

  /** A group followed by anything: the walk goes on with what it knows by then. */
  lemma {:induction false} GroupThenRest(items: seq<GroupItem>, rest: seq<byte>, known: Known)
    requires ValidGroup(items) && |EncodeGroup(items)| < 0x8000_0000
    ensures ScanGroup(EncodeGroup(items) + rest, known) == ScanGroup(rest, KnownAfter(items, known))
    decreases |items|
  {
    if items == [] {
      assert EncodeGroup(items) + rest == rest;
    } else {
      GroupTurnReads(items[0], EncodeGroup(items[1..]) + rest, known);
      PrependDrop(EncodeField(GroupField(items[0])), EncodeGroup(items[1..]), rest);
      GroupThenRest(items[1..], rest, Learn(known, items[0]));
      LastGroupIdCons(items);
    }
  }

  lemma GroupRoundTrip(items: seq<GroupItem>, known: Known)
    requires ValidGroup(items) && |EncodeGroup(items)| < 0x8000_0000
    ensures ScanGroup(EncodeGroup(items), known) == Some(Known(
      if LastGroupId(items).Some? then LastGroupId(items) else known.groupId,
      if known.presetId.Some? then known.presetId else FirstId(items)))
  {
    GroupThenRest(items, [], known);
    assert EncodeGroup(items) + [] == EncodeGroup(items);
    assert GroupStep([], KnownAfter(items, known)) == Stop;
  }

  lemma MessageTurnReads(item: MessageItem, rest: seq<byte>)
    requires ValidMessageItem(item) && |EncodeField(MessageField(item))| < 0x8000_0000
    ensures MessageStep(EncodeField(MessageField(item)) + rest)
         == Next(|EncodeField(MessageField(item))|, if IsVideoGroupWithId(item) then FirstId(item.items) else None)
  {
    var f := MessageField(item);
    FieldReads(f, rest);
    if item.PresetGroup? {
      DelimitedReads(EncodeGroup(item.items), rest);
      GroupRoundTrip(item.items, Known(None, None));
    }
  }

  /** A message followed by anything: its preset, or else what the rest gives. */
  lemma {:induction false} MessageThenRest(m: seq<MessageItem>, rest: seq<byte>)
    requires ValidMessage(m) && |Encode(m)| < 0x8000_0000
    ensures FindVideo(Encode(m) + rest) == if VideoPreset(m).Found? then VideoPreset(m) else FindVideo(rest)
  {
    if m == [] {
      assert Encode(m) + rest == rest;
    } else {
      MessageTurnReads(m[0], Encode(m[1..]) + rest);
      PrependDrop(EncodeField(MessageField(m[0])), Encode(m[1..]), rest);
      if !IsVideoGroupWithId(m[0]) {
        MessageThenRest(m[1..], rest);
      }
    }
  }

  lemma {:induction false} VideoPresetIsFoundOrNot(m: seq<MessageItem>)
    ensures VideoPreset(m).Found? || VideoPreset(m) == NotFound
  {
    if m == [] {
    } else {
      VideoPresetIsFoundOrNot(m[1..]);
    }
  }

  /** Main result: decoding any encoded NotifyPresetStatus returns exactly what the message means. */
  lemma DecodeInvertsEncode(m: seq<MessageItem>)
    requires ValidMessage(m) && |Encode(m)| < 0x8000_0000
    ensures FindVideo(Encode(m)) == VideoPreset(m)
  {
    MessageThenRest(m, []);
    assert Encode(m) + [] == Encode(m);
    VideoPresetIsFoundOrNot(m);
    assert MessageStep([]) == Stop;
  }

  // ---- Malformed bytes -----------------------------------------------------------------------

  /** No field can be read: no varint at the front, a wire type that is not 0, 1, 2 or 5, or a value cut short. */
  predicate Malformed(s: seq<byte>) {
    ReadVarint(s).None? || MalformedBody(ReadVarint(s).value.value, s[ReadVarint(s).value.size..])
  }

  predicate MalformedBody(tag: nat, rest: seq<byte>) {
    match tag % 8
    case 0 => ReadVarint(rest).None?
    case 1 => |rest| < 8
    case 2 => ReadVarint(rest).None?
              || (ReadVarint(rest).value.value < 0x8000_0000
                  && ReadVarint(rest).value.size + ReadVarint(rest).value.value > |rest|)
    case 5 => |rest| < 4
    case _ => true
  }

  /** At each level malformed bytes end the walk: what was found before them stands, and they add nothing. */
  lemma MalformedEnds(s: seq<byte>, known: Known)
    requires Malformed(s)
    ensures ScanPreset(s) == None && ScanGroup(s, known) == Some(known) && FindVideo(s) == NotFound
  {
    if ReadVarint(s).Some? {
      var tag := ReadVarint(s).value;
      MalformedValue(tag.value, s[tag.size..]);
    }
    assert PresetStep(s) == Stop;
    assert GroupStep(s, known) == Stop;
    assert MessageStep(s) == Stop;
  }

  lemma MalformedValue(tag: nat, rest: seq<byte>)
    requires MalformedBody(tag, rest)
    ensures ValueSize(WireType(tag), rest).None?
    ensures WireType(tag) == 0 ==> ReadVarint(rest).None?
    ensures WireType(tag) == 2 ==> CastLength(rest) == Stop
  {
  }

  /** So the message before malformed bytes is decoded as if they were not there. */
  lemma DecodesUpToMalformed(m: seq<MessageItem>, rest: seq<byte>)
    requires ValidMessage(m) && |Encode(m)| < 0x8000_0000 && Malformed(rest)
    ensures FindVideo(Encode(m) + rest) == VideoPreset(m)
  {
    MessageThenRest(m, rest);
    MalformedEnds(rest, Known(None, None));
    VideoPresetIsFoundOrNot(m);
  }

  /** Likewise within a group, and within a preset. */
  lemma NestedUpToMalformed(group: seq<GroupItem>, preset: seq<PresetItem>, rest: seq<byte>, known: Known)
    requires ValidGroup(group) && |EncodeGroup(group)| < 0x8000_0000
    requires ValidPreset(preset) && |EncodePreset(preset)| < 0x8000_0000
    requires Malformed(rest)
    ensures ScanGroup(EncodeGroup(group) + rest, known) == Some(KnownAfter(group, known))
    ensures ScanPreset(EncodePreset(preset) + rest) == IdOfPreset(preset)
  {
    GroupThenRest(group, rest, known);
    PresetThenRest(preset, rest);
    MalformedEnds(rest, KnownAfter(group, known));
  }

  // ---- Load Preset ---------------------------------------------------------------------------

  /** The seven bytes send_load_preset writes: the id as a big-endian uint32. */
  function LoadPresetPacket(presetId: int32): seq<byte> {
    var id: nat := presetId % 0x1_0000_0000;
    [0x06, 0x40, 0x04, (id / 0x100_0000) % 0x100, (id / 0x1_0000) % 0x100, (id / 0x100) % 0x100, id % 0x100]
  }

  /** Big-endian number spelled by `s`. */
  function BigEndian(s: seq<byte>): nat {
    if s == [] then 0 else 0x100 * BigEndian(s[..|s| - 1]) + s[|s| - 1]
  }

  /** The camera reads back the very id the message carried: header, command, parameter length, then the id. */
  lemma LoadPresetRoundTrip(presetId: int32)
    ensures var p := LoadPresetPacket(presetId);
      && |p| == 7 && p[0] as int == |p| - 1 && p[1] == 0x40 && p[2] as int == |p[3..]|
      && ToInt32(BigEndian(p[3..])) == presetId
  {
    var id: nat := presetId % 0x1_0000_0000;
    var p := LoadPresetPacket(presetId);
    assert p[3..] == [p[3], p[4], p[5], p[6]];
    FourBytes(p[3], p[4], p[5], p[6]);
    FourDigits(id);
    assert BigEndian(p[3..]) == id;
    WrapsBack(presetId);
  }

  lemma WrapsBack(n: int32)
    ensures ToInt32(n % 0x1_0000_0000) == n
  {
  }

  lemma FourDigits(id: nat)
    requires id < 0x1_0000_0000
    ensures id == 0x100_0000 * ((id / 0x100_0000) % 0x100) + 0x1_0000 * ((id / 0x1_0000) % 0x100)
               + 0x100 * ((id / 0x100) % 0x100) + id % 0x100
  {
    assert id / 0x1_0000 == (id / 0x100) / 0x100 && id / 0x100_0000 == (id / 0x1_0000) / 0x100;
  }

  lemma FourBytes(a: byte, b: byte, c: byte, d: byte)
    ensures BigEndian([a, b, c, d]) == 0x100_0000 * (a as int) + 0x1_0000 * (b as int) + 0x100 * (c as int) + d
  {
    assert [a, b, c, d][..3] == [a, b, c] && [a, b, c][..2] == [a, b] && [a, b][..1] == [a] && [a][..0] == [];
    assert BigEndian([a]) == a;
    assert BigEndian([a, b]) == 0x100 * (a as int) + b;
    assert BigEndian([a, b, c]) == 0x1_0000 * (a as int) + 0x100 * (b as int) + c;
  }
}
