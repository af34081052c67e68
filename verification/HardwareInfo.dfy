/** GetHardwareInfo (query.c): length-value fields, and the round trip from the camera's fields through any
    fragmentation to the parsed strings. */
module HardwareInfo {
  import opened Base
  import opened PresetMessage
  import opened Reassembly

  /** A length-value field at the front of `s`: its bytes and what follows. */
  datatype Field = Field(value: seq<byte>, rest: seq<byte>)

  function TakeField(s: seq<byte>): (r: Option<Field>)
    ensures r.Some? ==> |s| == 1 + |r.value.value| + |r.value.rest|
  {
    if |s| < 1 || 1 + s[0] as int > |s| then None
    else Some(Field(s[1..1 + s[0] as int], s[1 + s[0] as int..]))
  }

  /** What parse_and_log_hw_info has after it stops; a field never reached stays empty. */
  datatype Info = Info(modelNumber: nat, modelName: seq<byte>, firmware: seq<byte>, serial: seq<byte>,
                       ssid: seq<byte>, mac: seq<byte>, consumed: nat)

  const NOTHING := Info(0, [], [], [], [], [], 0)

  const NAME_SIZE: nat := 32
  const SHORT_SIZE: nat := 24

  /** A string field copied into a buffer of `size` bytes with its terminator. */
  function Clip(value: seq<byte>, size: nat): seq<byte>
    requires size > 0
  {
    Take(value, size - 1)
  }

  /** The parse, field by field, each step only when the one before found its field. */
  function Parse(p: seq<byte>): Info {
    var f1 := TakeField(p);
    if f1.None? || |f1.value.value| > 4 then NOTHING
    else ParseName(|p|, NOTHING.(modelNumber := BigEndian(f1.value.value)), f1.value.rest)
  }

  /** The model name and the deprecated field. */
  function ParseName(total: nat, i1: Info, p: seq<byte>): Info
    requires |p| <= total
  {
    var f2 := TakeField(p);
    if f2.None? then i1.(consumed := total - |p|)
    else
      var i2 := i1.(modelName := Clip(f2.value.value, NAME_SIZE), consumed := total - |f2.value.rest|);
      var f3 := TakeField(f2.value.rest);
      if f3.None? then i2 else ParseTail(total, i2, f3.value.rest)
  }

  /** The four strings after the deprecated field. */
  function ParseTail(total: nat, i3: Info, p: seq<byte>): Info
    requires |p| <= total
  {
    var f4 := TakeField(p);
    if f4.None? then i3.(consumed := total - |p|)
    else
      var i4 := i3.(firmware := Clip(f4.value.value, NAME_SIZE), consumed := total - |f4.value.rest|);
      var f5 := TakeField(f4.value.rest);
      if f5.None? then i4
      else
        var i5 := i4.(serial := Clip(f5.value.value, SHORT_SIZE), consumed := total - |f5.value.rest|);
        ParseNetwork(total, i5, f5.value.rest)
  }

  /** The last two strings. */
  function ParseNetwork(total: nat, i5: Info, p: seq<byte>): Info
    requires |p| <= total
  {
    var f6 := TakeField(p);
    if f6.None? then i5.(consumed := total - |p|)
    else
      var i6 := i5.(ssid := Clip(f6.value.value, SHORT_SIZE), consumed := total - |f6.value.rest|);
      var f7 := TakeField(f6.value.rest);
      if f7.None? then i6
      else i6.(mac := Clip(f7.value.value, SHORT_SIZE), consumed := total - |f7.value.rest|)
  }

  /** A complete response: command id and status come before the fields. */
  function ParseResponse(response: seq<byte>): Info { if |response| < 2 then NOTHING else Parse(response[2..]) }

  // ---- The sender ----------------------------------------------------------------------------

  /** The seven fields of a response. */
  datatype Fields = Fields(modelNumber: seq<byte>, modelName: seq<byte>, deprecated: seq<byte>,
                           firmware: seq<byte>, serial: seq<byte>, ssid: seq<byte>, mac: seq<byte>)

  predicate ValidFields(f: Fields) {
    && |f.modelNumber| <= 4 && |f.modelName| < 256 && |f.deprecated| < 256 && |f.firmware| < 256
    && |f.serial| < 256 && |f.ssid| < 256 && |f.mac| < 256
  }

  function EncodeField(value: seq<byte>): seq<byte>
    requires |value| < 256
  {
    [|value|] + value
  }

  function EncodeTail(f: Fields): seq<byte>
    requires ValidFields(f)
  {
    EncodeField(f.firmware) + (EncodeField(f.serial) + (EncodeField(f.ssid) + EncodeField(f.mac)))
  }

  function EncodeFields(f: Fields): seq<byte>
    requires ValidFields(f)
  {
    EncodeField(f.modelNumber) + (EncodeField(f.modelName) + (EncodeField(f.deprecated) + EncodeTail(f)))
  }

  /** What the receiver is meant to end up with. */
  function Expected(f: Fields): Info
    requires ValidFields(f)
  {
    Info(BigEndian(f.modelNumber), Clip(f.modelName, NAME_SIZE), Clip(f.firmware, NAME_SIZE),
         Clip(f.serial, SHORT_SIZE), Clip(f.ssid, SHORT_SIZE), Clip(f.mac, SHORT_SIZE), |EncodeFields(f)|)
  }

  lemma FieldReads(value: seq<byte>, rest: seq<byte>)
    requires |value| < 256
    ensures TakeField(EncodeField(value) + rest) == Some(Field(value, rest))
  {
    var s := EncodeField(value) + rest;
    assert s[1..1 + |value|] == value && s[1 + |value|..] == rest;
  }

  lemma TailReads(f: Fields, total: nat, i: Info)
    requires ValidFields(f) && |EncodeTail(f)| <= total
    ensures ParseTail(total, i, EncodeTail(f)) == i.(
      firmware := Clip(f.firmware, NAME_SIZE), serial := Clip(f.serial, SHORT_SIZE),
      ssid := Clip(f.ssid, SHORT_SIZE), mac := Clip(f.mac, SHORT_SIZE), consumed := total)
  {
    var network := EncodeField(f.ssid) + EncodeField(f.mac);
    FieldReads(f.firmware, EncodeField(f.serial) + network);
    FieldReads(f.serial, network);
    NetworkReads(f.ssid, f.mac, total, i.(firmware := Clip(f.firmware, NAME_SIZE),
                                          serial := Clip(f.serial, SHORT_SIZE), consumed := total - |network|));
  }

  lemma NetworkReads(ssid: seq<byte>, mac: seq<byte>, total: nat, i: Info)
    requires |ssid| < 256 && |mac| < 256 && |EncodeField(ssid) + EncodeField(mac)| <= total
    ensures ParseNetwork(total, i, EncodeField(ssid) + EncodeField(mac))
         == i.(ssid := Clip(ssid, SHORT_SIZE), mac := Clip(mac, SHORT_SIZE), consumed := total)
  {
    FieldReads(ssid, EncodeField(mac));
    FieldReads(mac, []);
    assert EncodeField(mac) + [] == EncodeField(mac);
  }

  lemma NameReads(f: Fields, total: nat, i: Info)
    requires ValidFields(f)
    requires |EncodeField(f.modelName) + (EncodeField(f.deprecated) + EncodeTail(f))| <= total
    ensures ParseName(total, i, EncodeField(f.modelName) + (EncodeField(f.deprecated) + EncodeTail(f))) == i.(
      modelName := Clip(f.modelName, NAME_SIZE),
      firmware := Clip(f.firmware, NAME_SIZE), serial := Clip(f.serial, SHORT_SIZE),
      ssid := Clip(f.ssid, SHORT_SIZE), mac := Clip(f.mac, SHORT_SIZE), consumed := total)
  {
    FieldReads(f.modelName, EncodeField(f.deprecated) + EncodeTail(f));
    FieldReads(f.deprecated, EncodeTail(f));
    TailReads(f, total, i.(modelName := Clip(f.modelName, NAME_SIZE),
                           consumed := total - |EncodeField(f.deprecated) + EncodeTail(f)|));
  }

  /** Parsing encoded fields recovers every one, clipped to its buffer, and consumes exactly the encoding. */
  lemma ParseInvertsEncode(f: Fields)
    requires ValidFields(f)
    ensures Parse(EncodeFields(f)) == Expected(f)
  {
    FieldReads(f.modelNumber, EncodeField(f.modelName) + (EncodeField(f.deprecated) + EncodeTail(f)));
    NameReads(f, |EncodeFields(f)|, NOTHING.(modelNumber := BigEndian(f.modelNumber)));
  }

  /** The response a camera sends. */
  function ResponseOf(f: Fields): seq<byte>
    requires ValidFields(f)
  {
    [0x3C, 0x00] + EncodeFields(f)
  }

  /** The reassembled response parses to the fields the camera sent. */
  lemma ResponseParses(f: Fields)
    requires ValidFields(f)
    ensures ParseResponse(ResponseOf(f)) == Expected(f)
  {
    assert ResponseOf(f)[2..] == EncodeFields(f);
    ParseInvertsEncode(f);
  }

  // ---- Responses cut short -------------------------------------------------------------------

  /** The i-th field of a response. */
  function FieldAt(f: Fields, i: nat): seq<byte>
    requires i < 7
  {
    [f.modelNumber, f.modelName, f.deprecated, f.firmware, f.serial, f.ssid, f.mac][i]
  }

  /** Fields i..k as the camera sends them. */
  function EncodeRange(f: Fields, i: nat, k: nat): seq<byte>
    requires i <= k <= 7 && ValidFields(f)
    decreases k - i
  {
    if i == k then [] else EncodeField(FieldAt(f, i)) + EncodeRange(f, i + 1, k)
  }

  /** Bytes that hold no complete field. */
  predicate CutShort(rest: seq<byte>) { rest == [] || |rest| < 1 + rest[0] as int }

  lemma NextField(f: Fields, i: nat, k: nat, rest: seq<byte>)
    requires ValidFields(f) && i < k <= 7
    ensures TakeField(EncodeRange(f, i, k) + rest) == Some(Field(FieldAt(f, i), EncodeRange(f, i + 1, k) + rest))
    ensures |EncodeRange(f, i, k) + rest| == 1 + |FieldAt(f, i)| + |EncodeRange(f, i + 1, k) + rest|
  {
    var later := EncodeRange(f, i + 1, k) + rest;
    assert EncodeRange(f, i, k) + rest == EncodeField(FieldAt(f, i)) + later;
    FieldReads(FieldAt(f, i), later);
  }

  lemma NoField(f: Fields, i: nat, rest: seq<byte>)
    requires ValidFields(f) && i <= 7 && CutShort(rest)
    ensures TakeField(EncodeRange(f, i, i) + rest).None? && |EncodeRange(f, i, i) + rest| == |rest|
  {
    assert EncodeRange(f, i, i) + rest == rest;
  }

  lemma NetworkCut(f: Fields, k: nat, rest: seq<byte>, total: nat, i: Info)
    requires ValidFields(f) && 5 <= k < 7 && CutShort(rest) && |EncodeRange(f, 5, k) + rest| <= total
    ensures var info := ParseNetwork(total, i, EncodeRange(f, 5, k) + rest);
      info == i.(ssid := if k > 5 then Clip(f.ssid, SHORT_SIZE) else i.ssid, consumed := total - |rest|)
  {
    if k == 5 {
      NoField(f, 5, rest);
    } else {
      NextField(f, 5, 6, rest);
      NoField(f, 6, rest);
    }
  }

  /** The first two strings of the tail, both there. */
  lemma TailGoesOn(total: nat, i: Info, s: seq<byte>, f4: Field, f5: Field)
    requires |s| <= total && TakeField(s) == Some(f4) && TakeField(f4.rest) == Some(f5)
    ensures ParseTail(total, i, s) == ParseNetwork(total, i.(firmware := Clip(f4.value, NAME_SIZE),
      serial := Clip(f5.value, SHORT_SIZE), consumed := total - |f5.rest|), f5.rest)
  {
  }

  /** The model name and the deprecated field, both there. */
  lemma NameGoesOn(total: nat, i: Info, s: seq<byte>, f2: Field, f3: Field)
    requires |s| <= total && TakeField(s) == Some(f2) && TakeField(f2.rest) == Some(f3)
    ensures ParseName(total, i, s) == ParseTail(total, i.(modelName := Clip(f2.value, NAME_SIZE),
      consumed := total - |f2.rest|), f3.rest)
  {
  }

  lemma TailCut(f: Fields, k: nat, rest: seq<byte>, total: nat, i: Info)
    requires ValidFields(f) && 3 <= k < 7 && CutShort(rest) && |EncodeRange(f, 3, k) + rest| <= total
    ensures var info := ParseTail(total, i, EncodeRange(f, 3, k) + rest);
      && info == i.(firmware := info.firmware, serial := info.serial, ssid := info.ssid, consumed := total - |rest|)
      && info.firmware == (if k > 3 then Clip(f.firmware, NAME_SIZE) else i.firmware)
      && info.serial == (if k > 4 then Clip(f.serial, SHORT_SIZE) else i.serial)
      && info.ssid == (if k > 5 then Clip(f.ssid, SHORT_SIZE) else i.ssid)
  {
    if k == 3 {
      NoField(f, 3, rest);
    } else if k == 4 {
      NextField(f, 3, 4, rest);
      NoField(f, 4, rest);
    } else {
      TailCutLate(f, k, rest, total, i);
    }
  }

  lemma TailCutLate(f: Fields, k: nat, rest: seq<byte>, total: nat, i: Info)
    requires ValidFields(f) && 5 <= k < 7 && CutShort(rest) && |EncodeRange(f, 3, k) + rest| <= total
    ensures var info := ParseTail(total, i, EncodeRange(f, 3, k) + rest);
      info == i.(firmware := Clip(f.firmware, NAME_SIZE), serial := Clip(f.serial, SHORT_SIZE),
                 ssid := if k > 5 then Clip(f.ssid, SHORT_SIZE) else i.ssid, consumed := total - |rest|)
  {
    NextField(f, 3, k, rest);
    NextField(f, 4, k, rest);
    var last := EncodeRange(f, 5, k) + rest;
    TailGoesOn(total, i, EncodeRange(f, 3, k) + rest, Field(f.firmware, EncodeRange(f, 4, k) + rest),
               Field(f.serial, last));
    NetworkCut(f, k, rest, total, i.(firmware := Clip(f.firmware, NAME_SIZE), serial := Clip(f.serial, SHORT_SIZE),
                                     consumed := total - |last|));
  }

  /** What is parsed when fields before the k-th are there, from the model name on. */
  predicate HasUpTo(info: Info, f: Fields, k: nat) {
    && info.modelName == (if k > 1 then Clip(f.modelName, NAME_SIZE) else [])
    && info.firmware == (if k > 3 then Clip(f.firmware, NAME_SIZE) else [])
    && info.serial == (if k > 4 then Clip(f.serial, SHORT_SIZE) else [])
    && info.ssid == (if k > 5 then Clip(f.ssid, SHORT_SIZE) else []) && info.mac == []
  }

  lemma NameCutEarly(f: Fields, k: nat, rest: seq<byte>, total: nat, number: nat)
    requires ValidFields(f) && 1 <= k < 3 && CutShort(rest) && |EncodeRange(f, 1, k) + rest| <= total
    ensures var info := ParseName(total, NOTHING.(modelNumber := number), EncodeRange(f, 1, k) + rest);
      info.modelNumber == number && info.consumed == total - |rest| && HasUpTo(info, f, k)
  {
    if k == 1 {
      NoField(f, 1, rest);
    } else {
      NextField(f, 1, 2, rest);
      NoField(f, 2, rest);
    }
  }

  lemma NameCutLate(f: Fields, k: nat, rest: seq<byte>, total: nat, number: nat)
    requires ValidFields(f) && 3 <= k < 7 && CutShort(rest) && |EncodeRange(f, 1, k) + rest| <= total
    ensures var info := ParseName(total, NOTHING.(modelNumber := number), EncodeRange(f, 1, k) + rest);
      info.modelNumber == number && info.consumed == total - |rest| && HasUpTo(info, f, k)
  {
    NextField(f, 1, k, rest);
    NextField(f, 2, k, rest);
    var i, later := NOTHING.(modelNumber := number), EncodeRange(f, 2, k) + rest;
    NameGoesOn(total, i, EncodeRange(f, 1, k) + rest, Field(f.modelName, later),
               Field(f.deprecated, EncodeRange(f, 3, k) + rest));
    TailCut(f, k, rest, total, i.(modelName := Clip(f.modelName, NAME_SIZE), consumed := total - |later|));
  }

  /** A response that ends early, or in the middle of a field, gives the fields that are complete, leaves the others
      empty, and consumes exactly the complete ones. */
  lemma CutShortReads(f: Fields, k: nat, rest: seq<byte>)
    requires ValidFields(f) && k < 7 && CutShort(rest)
    ensures var info := Parse(EncodeRange(f, 0, k) + rest);
      && info.modelNumber == (if k > 0 then BigEndian(f.modelNumber) else 0)
      && HasUpTo(info, f, k) && info.consumed == |EncodeRange(f, 0, k)|
  {
    if k == 0 {
      NoField(f, 0, rest);
    } else {
      NextField(f, 0, k, rest);
      if k < 3 {
        NameCutEarly(f, k, rest, |EncodeRange(f, 0, k) + rest|, BigEndian(f.modelNumber));
      } else {
        NameCutLate(f, k, rest, |EncodeRange(f, 0, k) + rest|, BigEndian(f.modelNumber));
      }
    }
  }

  /** What a string keeps in its buffer: everything up to 31 or 23 bytes, else that many from the front. */
  lemma ClipMeans(value: seq<byte>)
    ensures Clip(value, NAME_SIZE) <= value && Clip(value, SHORT_SIZE) <= value
    ensures |Clip(value, NAME_SIZE)| == if |value| < 31 then |value| else 31
    ensures |Clip(value, SHORT_SIZE)| == if |value| < 23 then |value| else 23
  {
  }

  /** A model number of more than four bytes stops the parse before anything is read. */
  lemma LongModelNumberStops(number: seq<byte>, rest: seq<byte>)
    requires 4 < |number| < 256
    ensures Parse(EncodeField(number) + rest) == NOTHING
  {
    FieldReads(number, rest);
  }

  /** Main result: however the response is cut, with any other traffic on up to four live connections, it
      completes on its last packet as the very response ResponseParses reads back. */
  lemma HardwareInfoStream(w: World, run: seq<Event>, h: nat, before: seq<Event>, c: Cut, after: seq<Event>, f: Fields)
    requires Inv(w) && ValidRun(ReactionOf(Protocol.HardwareInfo), w, run)
    requires ValidFields(f) && ValidCut(c) && Payload(c) == ResponseOf(f)
    requires |Payload(c)| <= Capacity(Protocol.HardwareInfo)
    requires Own(run, h) == before + CutEvents(h, c) + after
    ensures var past, n := |Alone(ReactionOf(Protocol.HardwareInfo), Get(w.ctx, h), before)|, |CutEvents(h, c)|;
      && past + n <= |Outputs(ReactionOf(Protocol.HardwareInfo), w, run, h)|
      && Outputs(ReactionOf(Protocol.HardwareInfo), w, run, h)[past..past + n] == OnlyAtTheEnd(n, ResponseOf(f))
  {
    HeaderIsFirst(c, EncodeFields(f));
    StreamCompletes(Protocol.HardwareInfo, w, run, h, before, c, after);
  }

  lemma HeaderIsFirst(c: Cut, body: seq<byte>)
    requires ValidCut(c) && Payload(c) == [0x3C, 0x00] + body
    ensures c.first[0] == 0x3C && c.first[1] == 0
  {
    assert c.first[0] == Payload(c)[0] && c.first[1] == Payload(c)[1];
  }

  // ---- The parser of the source --------------------------------------------------------------

  /** parse_lv_string: bytes consumed (0 on error) and the copied string. */
  method ParseLvString(data: seq<byte>, outSize: nat) returns (n: nat, out: seq<byte>)
    requires outSize > 0
    ensures n == 0 <==> TakeField(data).None?
    ensures n <= |data|
    ensures n > 0 ==> data[n..] == TakeField(data).value.rest && out == Clip(TakeField(data).value.value, outSize)
  {
    if |data| < 1 {
      return 0, [];
    }
    var fieldLen := data[0] as int;
    if 1 + fieldLen > |data| {
      return 0, [];
    }
    var copyLen := if fieldLen < outSize - 1 then fieldLen else outSize - 1;
    assert data[1..1 + copyLen] == data[1..1 + fieldLen][..copyLen];
    return 1 + fieldLen, data[1..1 + copyLen];
  }

  /** parse_lv_uint: bytes consumed (0 on error) and the big-endian value. */
  method ParseLvUint(data: seq<byte>) returns (n: nat, val: nat)
    ensures n == 0 <==> TakeField(data).None? || |TakeField(data).value.value| > 4
    ensures n <= |data|
    ensures n > 0 ==> data[n..] == TakeField(data).value.rest && val == BigEndian(TakeField(data).value.value)
  {
    if |data| < 1 {
      return 0, 0;
    }
    var fieldLen := data[0] as int;
    if 1 + fieldLen > |data| || fieldLen > 4 {
      return 0, 0;
    }
    val := 0;
    for i := 0 to fieldLen
      invariant val == BigEndian(data[1..1 + i])
    {
      assert data[1..1 + (i + 1)][..i] == data[1..1 + i];
      val := 0x100 * val + data[1 + i];
    }
    return 1 + fieldLen, val;
  }

  /** parse_and_log_hw_info: everything it logs, and how far it read.  `at` is the C `&payload[idx]`. */
  method ParseHwInfo(payload: seq<byte>) returns (info: Info)
    ensures info == Parse(payload)
  {
    info := NOTHING;
    var n, modelNumber := ParseLvUint(payload);
    if n == 0 {
      return;
    }
    var at := payload[n..];
    info := ParseNames(|payload|, at, info.(modelNumber := modelNumber));
  }

  /** The model name, and the deprecated field that is skipped. */
  method ParseNames(total: nat, start: seq<byte>, sofar: Info) returns (info: Info)
    requires |start| <= total
    ensures info == ParseName(total, sofar, start)
  {
    info := sofar.(consumed := total - |start|);
    var n, name := ParseLvString(start, NAME_SIZE);
    if n == 0 {
      return;
    }
    var at := start[n..];
    info := info.(modelName := name, consumed := total - |at|);
    var ok, rest := SkipField(at);
    if ok {
      info := ParseStrings(total, rest, info);
    }
  }

  /** The deprecated field is read over. */
  method SkipField(at: seq<byte>) returns (ok: bool, rest: seq<byte>)
    ensures ok <==> TakeField(at).Some?
    ensures ok ==> rest == TakeField(at).value.rest
  {
    if |at| == 0 {
      return false, [];
    }
    var depLen := at[0] as int;
    if 1 + depLen > |at| {
      return false, [];
    }
    return true, at[1 + depLen..];
  }

  /** The rest of parse_and_log_hw_info, after the deprecated field. */
  method ParseStrings(total: nat, start: seq<byte>, sofar: Info) returns (info: Info)
    requires |start| <= total
    ensures info == ParseTail(total, sofar, start)
  {
    var at := start;
    info := sofar.(consumed := total - |at|);
    var n, s := ParseLvString(at, NAME_SIZE);
    if n == 0 {
      return;
    }
    at := at[n..];
    info := info.(firmware := s, consumed := total - |at|);
    n, s := ParseLvString(at, SHORT_SIZE);
    if n == 0 {
      return;
    }
    at := at[n..];
    info := info.(serial := s, consumed := total - |at|);
    info := ParseNetworkStrings(total, at, info);
  }

  /** Its last two strings. */
  method ParseNetworkStrings(total: nat, start: seq<byte>, sofar: Info) returns (info: Info)
    requires |start| <= total
    ensures info == ParseNetwork(total, sofar, start)
  {
    var at := start;
    info := sofar.(consumed := total - |at|);
    var n, s := ParseLvString(at, SHORT_SIZE);
    if n == 0 {
      return;
    }
    at := at[n..];
    info := info.(ssid := s, consumed := total - |at|);
    n, s := ParseLvString(at, SHORT_SIZE);
    if n == 0 {
      return;
    }
    at := at[n..];
    info := info.(mac := s, consumed := total - |at|);
  }
}
