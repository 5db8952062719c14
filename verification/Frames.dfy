/** HTTP/2 frames (section 4.1 of RFC 7540): the octets of a frame, and the writers. */
module Frames {
  import opened Bits

  const DATA: byte := 0
  const HEADERS: byte := 1
  const RST_STREAM: byte := 3
  const SETTINGS: byte := 4
  const GOAWAY: byte := 7
  const WINDOW_UPDATE: byte := 8

  const END_STREAM: byte := 1
  const ACK: byte := 1
  const END_HEADERS: byte := 4

  type uint16 = x: int | 0 <= x < 0x1_0000
  type uint24 = x: int | 0 <= x < 0x100_0000
  type uint31 = x: int | 0 <= x < 0x8000_0000

  datatype FrameHeader = FrameHeader(length: uint24, kind: byte, flags: byte, streamId: uint31, reserved: bool)

  /** A frame whose header announces its payload. */
  datatype Frame = Frame(header: FrameHeader, payload: seq<byte>) {
    predicate Valid() {
      header.length == |payload|
    }
  }

  function Be16(v: uint16): (r: seq<byte>)
    ensures |r| == 2
  {
    [v / 0x100, v % 0x100]
  }

  function Be32(v: uint32): (r: seq<byte>)
    ensures |r| == 4
  {
    [v / 0x100_0000, v / 0x1_0000 % 0x100, v / 0x100 % 0x100, v % 0x100]
  }

  function Be24(v: uint24): (r: seq<byte>)
    ensures |r| == 3
  {
    [v / 0x1_0000, v / 0x100 % 0x100, v % 0x100]
  }

  function FromBe16(s: seq<byte>): (v: uint16)
    requires |s| >= 2
  {
    (s[0] as int) * 0x100 + s[1]
  }

  function FromBe24(s: seq<byte>): (v: uint24)
    requires |s| >= 3
  {
    (s[0] as int) * 0x1_0000 + (s[1] as int) * 0x100 + s[2]
  }

  function FromBe32(s: seq<byte>): (v: uint32)
    requires |s| >= 4
  {
    (s[0] as int) * 0x100_0000 + (s[1] as int) * 0x1_0000 + (s[2] as int) * 0x100 + s[3]
  }

  lemma Be24Inverse(v: uint24, s: seq<byte>)
    requires |s| == 3
    ensures FromBe24(Be24(v)) == v && Be24(FromBe24(s)) == s
  {
    var w := FromBe24(s);
    assert w / 0x100 == (s[0] as int) * 0x100 + s[1];
  }

  lemma Be32Inverse(v: uint32)
    ensures FromBe32(Be32(v)) == v
  {
    var w, h := v / 0x100, v / 0x1_0000;
    assert v == w * 0x100 + v % 0x100;
    assert w == h * 0x100 + w % 0x100;
    assert h == v / 0x100_0000 * 0x100 + h % 0x100;
  }

  lemma FromBe32Inverse(s: seq<byte>)
    requires |s| == 4
    ensures Be32(FromBe32(s)) == s
  {
    var w := FromBe32(s);
    assert w / 0x100 == (s[0] as int) * 0x1_0000 + (s[1] as int) * 0x100 + s[2];
    assert w / 0x1_0000 == (s[0] as int) * 0x100 + s[1];
  }

  /** The last four octets: the reserved bit above a 31-bit identifier. */
  function StreamWord(h: FrameHeader): uint32 {
    h.streamId + if h.reserved then 0x8000_0000 else 0
  }

  function HeaderBytes(h: FrameHeader): (r: seq<byte>)
    ensures |r| == 9
  {
    Be24(h.length) + [h.kind, h.flags] + Be32(StreamWord(h))
  }

  /** Reading a header back from its nine octets. */
  function ParsedHeader(b: seq<byte>): (h: FrameHeader)
    requires |b| == 9
  {
    var word := FromBe32(b[5..]);
    FrameHeader(FromBe24(b[..3]), b[3], b[4], word % 0x8000_0000, word >= 0x8000_0000)
  }

  /** Header octets and headers correspond one to one. */
  lemma HeaderInverse(h: FrameHeader)
    ensures ParsedHeader(HeaderBytes(h)) == h
  {
    var b := HeaderBytes(h);
    assert b[..3] == Be24(h.length) && b[5..] == Be32(StreamWord(h)) && b[3] == h.kind && b[4] == h.flags;
    hide Be24, Be32, FromBe24, FromBe32;
    Be24Inverse(h.length, b[..3]);
    Be32Inverse(StreamWord(h));
  }

  lemma ParsedInverse(b: seq<byte>)
    requires |b| == 9
    ensures HeaderBytes(ParsedHeader(b)) == b
  {
    hide Be24, Be32, FromBe24, FromBe32;
    Be24Inverse(0, b[..3]);
    FromBe32Inverse(b[5..]);
    assert b == b[..3] + [b[3], b[4]] + b[5..];
  }

  /** Where a header's fields are on the wire, highest octets first (sections 2.2 and 4.1 of RFC 7540). */
  lemma HeaderLayout(h: FrameHeader)
    ensures var b := HeaderBytes(h);
            && h.length == 65536 * (b[0] as int) + 256 * (b[1] as int) + b[2] && b[3] == h.kind && b[4] == h.flags
            && h.streamId + (if h.reserved then 0x8000_0000 else 0)
                 == 16777216 * (b[5] as int) + 65536 * (b[6] as int) + 256 * (b[7] as int) + b[8]
  {
    var b := HeaderBytes(h);
    assert b[..3] == Be24(h.length) && b[5..] == Be32(StreamWord(h));
    Be24Inverse(h.length, b[..3]);
    Be32Inverse(StreamWord(h));
  }

  function FrameBytes(f: Frame): (r: seq<byte>) {
    HeaderBytes(f.header) + f.payload
  }

  function FramesBytes(fs: seq<Frame>): (r: seq<byte>) {
    if fs == [] then [] else FrameBytes(fs[0]) + FramesBytes(fs[1..])
  }

  lemma {:induction false} FramesBytesConcat(a: seq<Frame>, b: seq<Frame>)
    ensures FramesBytes(a + b) == FramesBytes(a) + FramesBytes(b)
  {
    if a == [] {
      assert a + b == b;
    } else {
      assert (a + b)[1..] == a[1..] + b;
      FramesBytesConcat(a[1..], b);
    }
  }

  lemma FramesBytesOne(f: Frame)
    ensures FramesBytes([f]) == FrameBytes(f)
  {
    assert [f][1..] == [];
  }

  // ---- The frames the library writes ----------------------------------------

  datatype Setting = Setting(id: uint16, value: uint32)

  const INITIAL_WINDOW_SIZE: uint16 := 4

  function SettingsBytes(settings: seq<Setting>): (r: seq<byte>)
    ensures |r| == 6 * |settings|
  {
    if settings == [] then []
    else Be16(settings[0].id) + Be32(settings[0].value) + SettingsBytes(settings[1..])
  }

  lemma SettingsStep(settings: seq<Setting>, i: nat)
    requires i < |settings|
    ensures SettingsBytes(settings[i..]) ==
            Be16(settings[i].id) + (Be32(settings[i].value) + SettingsBytes(settings[i + 1..]))
  {
    assert settings[i..][1..] == settings[i + 1..];
  }

  lemma SettingsEnd(settings: seq<Setting>)
    ensures SettingsBytes(settings[|settings|..]) == []
    ensures |SettingsBytes(settings)| == 6 * |settings|
  {
  }

  /** Lengths go into a 24-bit field and identifiers into 31 bits. */
  function MakeFrame(kind: byte, flags: byte, streamId: uint32, payload: seq<byte>): (f: Frame)
    ensures |payload| < 0x100_0000 ==> f.Valid()
  {
    Frame(FrameHeader(|payload| % 0x100_0000, kind, flags, streamId % 0x8000_0000, false), payload)
  }

  function DataFrame(streamId: uint32, payload: seq<byte>, endStream: bool): Frame {
    MakeFrame(DATA, if endStream then END_STREAM else 0, streamId, payload)
  }

  function HeadersFrame(streamId: uint32, block: seq<byte>, endHeaders: bool, endStream: bool): Frame {
    MakeFrame(HEADERS, (if endStream then END_STREAM else 0) + (if endHeaders then END_HEADERS else 0), streamId, block)
  }

  function SettingsFrame(settings: seq<Setting>, ack: bool): Frame {
    MakeFrame(SETTINGS, if ack then ACK else 0, 0, SettingsBytes(settings))
  }

  function WindowUpdateFrame(streamId: uint32, increment: uint32): Frame {
    MakeFrame(WINDOW_UPDATE, 0, streamId, Be32(increment % 0x8000_0000))
  }

  function GoawayFrame(lastStreamId: uint32, errorCode: uint32, debug: seq<byte>): Frame {
    MakeFrame(GOAWAY, 0, 0, Be32(lastStreamId % 0x8000_0000) + Be32(errorCode) + debug)
  }

  /** Known frames, octet by octet (section 6 of RFC 7540). */
  lemma KnownData()
    ensures FrameBytes(DataFrame(1, [104, 105], true)) == [0, 0, 2, 0, 1, 0, 0, 0, 1, 104, 105]
  {
  }

  lemma KnownHeaders()
    ensures FrameBytes(HeadersFrame(3, [0x82], true, true)) == [0, 0, 1, 1, 5, 0, 0, 0, 3, 0x82]
    ensures FrameBytes(HeadersFrame(258, [0x82], true, false)) == [0, 0, 1, 1, 4, 0, 0, 1, 2, 0x82]
  {
  }

  lemma KnownSettings()
    ensures FrameBytes(SettingsFrame([Setting(INITIAL_WINDOW_SIZE, 0x10_0000)], false))
         == [0, 0, 6, 4, 0, 0, 0, 0, 0, 0, 4, 0, 16, 0, 0]
    ensures FrameBytes(SettingsFrame([], true)) == [0, 0, 0, 4, 1, 0, 0, 0, 0]
  {
    var one := [Setting(INITIAL_WINDOW_SIZE, 0x10_0000)];
    assert one[1..] == [] && SettingsBytes(one[1..]) == [];
    assert SettingsBytes(one) == [0, 4] + [0, 16, 0, 0];
  }

  lemma KnownGoaway()
    ensures FrameBytes(GoawayFrame(5, 2, [33])) == [0, 0, 9, 7, 0, 0, 0, 0, 0, 0, 0, 0, 5, 0, 0, 0, 2, 33]
  {
  }

  lemma KnownWindowUpdate()
    ensures FrameBytes(WindowUpdateFrame(7, 0x1_0203)) == [0, 0, 4, 8, 0, 0, 0, 0, 7, 0, 1, 2, 3]
  {
  }

  /** The octets waiting to be sent; every writer appends to them. */
  class OutputBuffer {
    var data: seq<byte>

    constructor ()
      ensures data == []
    {
      data := [];
    }

    method PushBack(b: byte)
      modifies this
      ensures data == old(data) + [b]
    {
      data := data + [b];
    }

    method PushBe16(v: uint16)
      modifies this
      ensures data == old(data) + Be16(v)
    {
      PushBack(v / 0x100 % 0x100);
      PushBack(v % 0x100);
    }

    /** Push a 32-bit value, most significant octet first. */
    method PushBe32(v: uint32)
      modifies this
      ensures data == old(data) + Be32(v)
    {
      PushBack(v / 0x100_0000 % 0x100);
      PushBack(v / 0x1_0000 % 0x100);
      PushBack(v / 0x100 % 0x100);
      PushBack(v % 0x100);
    }

    /** The reserved bit is never written. */
    method WriteFrameHeader(h: FrameHeader)
      modifies this
      ensures data == old(data) + HeaderBytes(h.(reserved := false))
    {
      PushBack(h.length / 0x1_0000 % 0x100);
      PushBack(h.length / 0x100 % 0x100);
      PushBack(h.length % 0x100);
      PushBack(h.kind);
      PushBack(h.flags);
      PushBe32(h.streamId);
    }

    method EncodeDataFrame(streamId: uint32, payload: seq<byte>, endStream: bool)
      modifies this
      ensures data == old(data) + FrameBytes(DataFrame(streamId, payload, endStream))
    {
      WriteFrameHeader(FrameHeader(
        |payload| % 0x100_0000, DATA, if endStream then 1 else 0, streamId % 0x8000_0000, false));
      if payload != [] {
        data := data + payload;
      }
    }

    method EncodeHeadersFrame(streamId: uint32, block: seq<byte>, endHeaders: bool, endStream: bool)
      modifies this
      ensures data == old(data) + FrameBytes(HeadersFrame(streamId, block, endHeaders, endStream))
    {
      var flags: byte := 0;
      if endStream {
        flags := flags + 1;
      }
      if endHeaders {
        flags := flags + 4;
      }
      WriteFrameHeader(FrameHeader(|block| % 0x100_0000, HEADERS, flags, streamId % 0x8000_0000, false));
      if block != [] {
        data := data + block;
      }
    }

    method EncodeSettingsFrame(settings: seq<Setting>, ack: bool)
      modifies this
      ensures data == old(data) + FrameBytes(SettingsFrame(settings, ack))
    {
      hide Be16, Be32, HeaderBytes, SettingsBytes;
      WriteFrameHeader(FrameHeader(
        |settings| * 6 % 0x100_0000, SETTINGS, if ack then 1 else 0, 0, false));
      ghost var head := data;
      var i := 0;
      assert settings[0..] == settings;
      while i < |settings|
        invariant 0 <= i <= |settings|
        invariant data + SettingsBytes(settings[i..]) == head + SettingsBytes(settings)
      {
        SettingsStep(settings, i);
        PushBe16(settings[i].id);
        PushBe32(settings[i].value);
        i := i + 1;
      }
      SettingsEnd(settings);
      assert data + [] == data;
      assert (old(data) + HeaderBytes(SettingsFrame(settings, ack).header)) + SettingsBytes(settings)
          == old(data) + (HeaderBytes(SettingsFrame(settings, ack).header) + SettingsBytes(settings));
    }

    method EncodeWindowUpdateFrame(streamId: uint32, increment: uint32)
      modifies this
      ensures data == old(data) + FrameBytes(WindowUpdateFrame(streamId, increment))
    {
      WriteFrameHeader(FrameHeader(4, WINDOW_UPDATE, 0, streamId % 0x8000_0000, false));
      PushBe32(increment % 0x8000_0000);
    }

    method EncodeGoawayFrame(lastStreamId: uint32, errorCode: uint32, debug: seq<byte>)
      modifies this
      ensures data == old(data) + FrameBytes(GoawayFrame(lastStreamId, errorCode, debug))
    {
      WriteFrameHeader(FrameHeader((8 + |debug|) % 0x100_0000, GOAWAY, 0, 0, false));
      PushBe32(lastStreamId % 0x8000_0000);
      PushBe32(errorCode);
      if debug != [] {
        data := data + debug;
      }
    }
  }

  // ---- Uniqueness of framing ------------------------------------------------

  /** Octets that are not yet a frame: part of a header, or a header and part of its payload. */
  ghost predicate Partial(rest: seq<byte>) {
    |rest| < 9 || |rest| - 9 < ParsedHeader(rest[..9]).length
  }

  /** Octets split into frames in only one way. */
  lemma {:induction false} FramingUnique(fs: seq<Frame>, gs: seq<Frame>, rest: seq<byte>, rest': seq<byte>)
    requires forall f :: f in fs ==> f.Valid()
    requires forall g :: g in gs ==> g.Valid()
    requires Partial(rest) && Partial(rest')
    requires FramesBytes(fs) + rest == FramesBytes(gs) + rest'
    ensures fs == gs && rest == rest'
    decreases |fs|
  {
    hide FrameBytes, HeaderBytes, ParsedHeader, Partial;
    if fs != [] {
      FirstFrame(fs, rest);
    }
    if gs != [] {
      FirstFrame(gs, rest');
    }
    if fs == [] || gs == [] {
      assert FramesBytes([]) + rest == rest && FramesBytes([]) + rest' == rest';
    } else {
      FramingUnique(fs[1..], gs[1..], rest, rest');
      assert fs == [fs[0]] + fs[1..] && gs == [gs[0]] + gs[1..];
    }
  }

  lemma FirstUnfolds(fs: seq<Frame>)
    requires fs != []
    ensures FramesBytes(fs) == HeaderBytes(fs[0].header) + fs[0].payload + FramesBytes(fs[1..])
  {
  }

  /** Where the parts of a header, a payload and what follows are. */
  lemma CutFrame(all: seq<byte>, head: seq<byte>, payload: seq<byte>, tail: seq<byte>)
    requires |head| == 9 && all == head + (payload + tail)
    ensures |all| >= 9 + |payload|
    ensures all[..9] == head && all[9..9 + |payload|] == payload && all[9 + |payload|..] == tail
  {
    assert all[9..] == payload + tail;
    assert all[9..9 + |payload|] == all[9..][..|payload|];
    assert all[9 + |payload|..] == all[9..][|payload|..];
  }

  /** What the first octets of a frame sequence say about its first frame. */
  lemma FirstFrame(fs: seq<Frame>, rest: seq<byte>)
    requires fs != [] && fs[0].Valid()
    ensures var all := FramesBytes(fs) + rest;
            var n := 9 + |fs[0].payload|;
            && |all| >= n
            && ParsedHeader(all[..9]) == fs[0].header
            && all[9..n] == fs[0].payload
            && all[n..] == FramesBytes(fs[1..]) + rest
            && !Partial(all)
  {
    hide HeaderBytes, ParsedHeader, FramesBytes, FrameBytes;
    var head, payload, more := HeaderBytes(fs[0].header), fs[0].payload, FramesBytes(fs[1..]);
    FirstUnfolds(fs);
    HeaderInverse(fs[0].header);
    Regroup(head, payload, more, rest);
    CutFrame(FramesBytes(fs) + rest, head, payload, more + rest);
  }

  lemma Regroup(a: seq<byte>, b: seq<byte>, c: seq<byte>, d: seq<byte>)
    ensures a + b + c + d == a + (b + (c + d))
  {
  }
}
