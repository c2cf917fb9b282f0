/** The wire formats of `network/src/protocols.rs`. */
module Protocols {
  import opened Types
  import opened Bytes

  const FRAME_HANDSHAKE: u8 := 1
  const FRAME_INIT: u8 := 2
  const FRAME_SHUTDOWN: u8 := 3
  const FRAME_OPEN_STREAM: u8 := 4
  const FRAME_CLOSE_STREAM: u8 := 5
  const FRAME_DATA_HEADER: u8 := 6
  const FRAME_DATA: u8 := 7
  const FRAME_RAW: u8 := 8

  /** Size of the buffer a UDP writer assembles its datagrams in. */
  const UDP_BUFFER := 2000

  // ----- specification: the bytes of a frame -----

  /** The length field: `data.len() as u16`. */
  function LengthField(data: seq<u8>): u16 { |data| % 0x1_0000 }

  function Encode(f: Frame): seq<u8> {
    match f
    case Handshake(magic, v) => [FRAME_HANDSHAKE] + magic + LE(v.major, 4) + LE(v.minor, 4) + LE(v.patch, 4)
    case Init(pid, secret) => [FRAME_INIT] + LE(pid, 16) + LE(secret, 16)
    case Shutdown => [FRAME_SHUTDOWN]
    case OpenStream(sid, prio, promises) => [FRAME_OPEN_STREAM] + LE(sid, 8) + [prio] + [promises]
    case CloseStream(sid) => [FRAME_CLOSE_STREAM] + LE(sid, 8)
    case DataHeader(mid, sid, length) => [FRAME_DATA_HEADER] + LE(mid, 8) + LE(sid, 8) + LE(length, 8)
    case Data(mid, start, data) => [FRAME_DATA] + LE(mid, 8) + LE(start, 8) + LE(LengthField(data), 2) + data
    case Raw(data) => [FRAME_RAW] + LE(LengthField(data), 2) + data
  }

  function EncodeAll(fs: seq<Frame>): seq<u8> {
    if fs == [] then [] else Encode(fs[0]) + EncodeAll(fs[1..])
  }

  /** The payload's length survives the 16-bit length field. */
  predicate Fits(f: Frame) {
    match f
    case Data(_, _, data) => |data| < 0x1_0000
    case Raw(data) => |data| < 0x1_0000
    case _ => true
  }

  predicate AllFit(fs: seq<Frame>) { forall f :: f in fs ==> Fits(f) }

  // ----- specification: the frame a byte stream starts with -----

  datatype Parsed = Incomplete | Got(frame: Frame, used: nat)

  function ParseDataFrame(b: seq<u8>): (r: Parsed)
    ensures r.Got? ==> 19 <= r.used <= |b|
  {
    if |b| < 19 then Incomplete
    else
      var length := U16(b[17..19]);
      if |b| < 19 + length then Incomplete
      else Got(Data(U64(b[1..9]), U64(b[9..17]), b[19..19 + length]), 19 + length)
  }

  function ParseRawFrame(b: seq<u8>): (r: Parsed)
    ensures r.Got? ==> 3 <= r.used <= |b|
  {
    if |b| < 3 then Incomplete
    else
      var length := U16(b[1..3]);
      if |b| < 3 + length then Incomplete else Got(Raw(b[3..3 + length]), 3 + length)
  }

  /** What a TCP reader makes of the front of its input. */
  function Parse(b: seq<u8>): (r: Parsed)
    ensures r.Got? ==> 0 < r.used <= |b|
  {
    if |b| == 0 then Incomplete
    else if b[0] == FRAME_HANDSHAKE then
      if |b| < 20 then Incomplete
      else Got(Handshake(b[1..8], Version(U32(b[8..12]), U32(b[12..16]), U32(b[16..20]))), 20)
    else if b[0] == FRAME_INIT then
      if |b| < 33 then Incomplete else Got(Init(U128(b[1..17]), U128(b[17..33])), 33)
    else if b[0] == FRAME_SHUTDOWN then Got(Shutdown, 1)
    else if b[0] == FRAME_OPEN_STREAM then
      if |b| < 11 then Incomplete else Got(OpenStream(U64(b[1..9]), b[9], b[10]), 11)
    else if b[0] == FRAME_CLOSE_STREAM then
      if |b| < 9 then Incomplete else Got(CloseStream(U64(b[1..9])), 9)
    else if b[0] == FRAME_DATA_HEADER then
      if |b| < 25 then Incomplete else Got(DataHeader(U64(b[1..9]), U64(b[9..17]), U64(b[17..25])), 25)
    else if b[0] == FRAME_DATA then ParseDataFrame(b)
    else if b[0] == FRAME_RAW then ParseRawFrame(b)
    else
      // an unknown tag: a guess of 32 bytes, tag included
      if |b| < 32 then Incomplete else Got(Raw(b[..32]), 32)
  }

  /** Every frame that has arrived completely. */
  function ParseAll(b: seq<u8>): seq<Frame> {
    match Parse(b)
    case Incomplete => []
    case Got(f, used) => [f] + ParseAll(b[used..])
  }

  // ----- one frame -----

  /** Where the fields of a packet lie, for packets of two to four fields with something behind them. */
  lemma TwoFields(t: u8, a: seq<u8>, rest: seq<u8>)
    ensures var w := [t] + a + rest; w[0] == t && w[1..1 + |a|] == a
  {
  }

  lemma ThreeFields(t: u8, a: seq<u8>, b: seq<u8>, rest: seq<u8>)
    ensures var w := [t] + a + b + rest;
      w[0] == t && w[1..1 + |a|] == a && w[1 + |a|..1 + |a| + |b|] == b
  {
  }

  lemma FourFields(t: u8, a: seq<u8>, b: seq<u8>, c: seq<u8>, rest: seq<u8>)
    ensures var w := [t] + a + b + c + rest;
      && w[0] == t && w[1..1 + |a|] == a && w[1 + |a|..1 + |a| + |b|] == b
      && w[1 + |a| + |b|..1 + |a| + |b| + |c|] == c
  {
  }

  lemma FiveFields(t: u8, a: seq<u8>, b: seq<u8>, c: seq<u8>, d: seq<u8>, rest: seq<u8>)
    ensures var w := [t] + a + b + c + d + rest;
      && w[0] == t && w[1..1 + |a|] == a && w[1 + |a|..1 + |a| + |b|] == b
      && w[1 + |a| + |b|..1 + |a| + |b| + |c|] == c
      && w[1 + |a| + |b| + |c|..1 + |a| + |b| + |c| + |d|] == d
  {
  }

  // ----- the layout of a packet -----

  /** The `k` bytes from `at` on are those of `n`, least significant first. */
  predicate FieldAt(w: seq<u8>, at: nat, n: nat, k: nat) {
    at + k <= |w| && forall i :: 0 <= i < k ==> w[at + i] == Digit(n, i)
  }

  /** The packet of a frame, byte for byte. Of the length of a payload the low two bytes are sent. */
  predicate Layout(f: Frame, w: seq<u8>) {
    match f
    case Handshake(magic, v) =>
      && |w| == 20 && w[0] == 1 && w[1..8] == magic
      && FieldAt(w, 8, v.major, 4) && FieldAt(w, 12, v.minor, 4) && FieldAt(w, 16, v.patch, 4)
    case Init(pid, secret) => |w| == 33 && w[0] == 2 && FieldAt(w, 1, pid, 16) && FieldAt(w, 17, secret, 16)
    case Shutdown => w == [3]
    case OpenStream(sid, prio, promises) =>
      |w| == 11 && w[0] == 4 && FieldAt(w, 1, sid, 8) && w[9] == prio && w[10] == promises
    case CloseStream(sid) => |w| == 9 && w[0] == 5 && FieldAt(w, 1, sid, 8)
    case DataHeader(mid, sid, length) =>
      |w| == 25 && w[0] == 6 && FieldAt(w, 1, mid, 8) && FieldAt(w, 9, sid, 8) && FieldAt(w, 17, length, 8)
    case Data(mid, start, data) =>
      && |w| == 19 + |data| && w[0] == 7 && FieldAt(w, 1, mid, 8) && FieldAt(w, 9, start, 8)
      && FieldAt(w, 17, |data|, 2) && w[19..] == data
    case Raw(data) => |w| == 3 + |data| && w[0] == 8 && FieldAt(w, 1, |data|, 2) && w[3..] == data
  }

  lemma FieldWritten(w: seq<u8>, at: nat, n: nat, k: nat)
    requires at + k <= |w| && w[at..at + k] == LE(n, k)
    ensures FieldAt(w, at, n, k)
  {
    forall i | 0 <= i < k ensures w[at + i] == Digit(n, i) {
      LEAt(n, k, i);
      assert w[at + i] == w[at..at + k][i];
    }
  }

  lemma LowBytes(n: nat, m: nat, h: nat)
    requires m == n % 0x1_0000 && h == n / 0x1_0000
    ensures m % 256 == n % 256 && m / 256 % 256 == n / 256 % 256
  {
    assert n == 256 * (256 * h) + m;
    assert n / 256 == 256 * h + m / 256;
  }

  lemma LowDigits(n: nat, i: nat)
    requires i < 2
    ensures Digit(n % 0x1_0000, i) == Digit(n, i)
  {
    assert Pow256(0) == 1 && Pow256(1) == 256;
    LowBytes(n, n % 0x1_0000, n / 0x1_0000);
  }

  lemma LengthWritten(w: seq<u8>, at: nat, data: seq<u8>)
    requires at + 2 <= |w| && w[at..at + 2] == LE(LengthField(data), 2)
    ensures FieldAt(w, at, |data|, 2)
  {
    FieldWritten(w, at, LengthField(data), 2);
    forall i | 0 <= i < 2 ensures w[at + i] == Digit(|data|, i) { LowDigits(|data|, i); }
  }

  lemma LayoutSetup(f: Frame)
    requires f.Handshake? || f.Init?
    ensures Layout(f, Encode(f))
  {
    var w := Encode(f);
    assert w + [] == w;
    if f.Handshake? {
      var v := f.version;
      FiveFields(FRAME_HANDSHAKE, f.magic, LE(v.major, 4), LE(v.minor, 4), LE(v.patch, 4), []);
      FieldWritten(w, 8, v.major, 4);
      FieldWritten(w, 12, v.minor, 4);
      FieldWritten(w, 16, v.patch, 4);
    } else {
      ThreeFields(FRAME_INIT, LE(f.pid, 16), LE(f.secret, 16), []);
      FieldWritten(w, 1, f.pid, 16);
      FieldWritten(w, 17, f.secret, 16);
    }
  }

  lemma LayoutControl(f: Frame)
    requires f.Shutdown? || f.OpenStream? || f.CloseStream? || f.DataHeader?
    ensures Layout(f, Encode(f))
  {
    var w := Encode(f);
    assert w + [] == w;
    match f
    case Shutdown =>
    case OpenStream(sid, prio, promises) =>
      FourFields(FRAME_OPEN_STREAM, LE(sid, 8), [prio], [promises], []);
      FieldWritten(w, 1, sid, 8);
    case CloseStream(sid) =>
      TwoFields(FRAME_CLOSE_STREAM, LE(sid, 8), []);
      FieldWritten(w, 1, sid, 8);
    case DataHeader(mid, sid, length) =>
      var a, b, c := LE(mid, 8), LE(sid, 8), LE(length, 8);
      FourFields(FRAME_DATA_HEADER, a, b, c, []);
      assert w == [FRAME_DATA_HEADER] + a + b + c;
      FieldWritten(w, 1, mid, 8);
      FieldWritten(w, 9, sid, 8);
      FieldWritten(w, 17, length, 8);
  }

  lemma LayoutPayload(f: Frame)
    requires f.Data? || f.Raw?
    ensures Layout(f, Encode(f))
  {
    var w := Encode(f);
    assert w + [] == w;
    if f.Data? {
      FiveFields(FRAME_DATA, LE(f.mid, 8), LE(f.start, 8), LE(LengthField(f.data), 2), f.data, []);
      FieldWritten(w, 1, f.mid, 8);
      FieldWritten(w, 9, f.start, 8);
      LengthWritten(w, 17, f.data);
    } else {
      ThreeFields(FRAME_RAW, LE(LengthField(f.data), 2), f.data, []);
      LengthWritten(w, 1, f.data);
    }
  }

  /** What a frame looks like on the wire: its tag, and where each field lies. */
  lemma EncodeLayout(f: Frame)
    ensures Layout(f, Encode(f))
  {
    match f
    case Handshake(_, _) => LayoutSetup(f);
    case Init(_, _) => LayoutSetup(f);
    case Data(_, _, _) => LayoutPayload(f);
    case Raw(_) => LayoutPayload(f);
    case _ => LayoutControl(f);
  }

  // ----- one frame, back again -----

  lemma ParseEncodeHandshake(f: Frame, rest: seq<u8>)
    requires f.Handshake?
    ensures Parse(Encode(f) + rest) == Got(f, |Encode(f)|)
  {
    var v := f.version;
    U32ReadBack(v.major);
    U32ReadBack(v.minor);
    U32ReadBack(v.patch);
    FiveFields(FRAME_HANDSHAKE, f.magic, LE(v.major, 4), LE(v.minor, 4), LE(v.patch, 4), rest);
  }

  lemma ParseEncodeInit(f: Frame, rest: seq<u8>)
    requires f.Init?
    ensures Parse(Encode(f) + rest) == Got(f, |Encode(f)|)
  {
    U128ReadBack(f.pid);
    U128ReadBack(f.secret);
    ThreeFields(FRAME_INIT, LE(f.pid, 16), LE(f.secret, 16), rest);
  }

  lemma ParseEncodeOpen(f: Frame, rest: seq<u8>)
    requires f.OpenStream?
    ensures Parse(Encode(f) + rest) == Got(f, |Encode(f)|)
  {
    U64ReadBack(f.sid);
    FourFields(FRAME_OPEN_STREAM, LE(f.sid, 8), [f.prio], [f.promises], rest);
  }

  lemma ParseEncodeClose(f: Frame, rest: seq<u8>)
    requires f.CloseStream?
    ensures Parse(Encode(f) + rest) == Got(f, |Encode(f)|)
  {
    U64ReadBack(f.sid);
    TwoFields(FRAME_CLOSE_STREAM, LE(f.sid, 8), rest);
  }

  lemma ParseEncodeHeader(f: Frame, rest: seq<u8>)
    requires f.DataHeader?
    ensures Parse(Encode(f) + rest) == Got(f, |Encode(f)|)
  {
    U64ReadBack(f.mid);
    U64ReadBack(f.sid);
    U64ReadBack(f.length);
    FourFields(FRAME_DATA_HEADER, LE(f.mid, 8), LE(f.sid, 8), LE(f.length, 8), rest);
  }

  lemma DataLength(w: seq<u8>, data: seq<u8>)
    requires |data| < 0x1_0000 && |w| >= 19 + |data| && w[17..19] == LE(LengthField(data), 2)
    ensures U16(w[17..19]) == |data|
  {
    U16ReadBack(LengthField(data));
  }

  lemma ParseData(w: seq<u8>, mid: Mid, start: u64, data: seq<u8>)
    requires |data| < 0x1_0000 && |w| >= 19 + |data|
    requires w[1..9] == LE(mid, 8) && w[9..17] == LE(start, 8)
    requires w[17..19] == LE(LengthField(data), 2) && w[19..19 + |data|] == data
    ensures ParseDataFrame(w) == Got(Data(mid, start, data), 19 + |data|)
  {
    DataLength(w, data);
    assert U64(w[1..9]) == mid by { U64ReadBack(mid); }
    assert U64(w[9..17]) == start by { U64ReadBack(start); }
  }

  lemma ParseEncodeData(f: Frame, rest: seq<u8>)
    requires f.Data? && Fits(f)
    ensures Parse(Encode(f) + rest) == Got(f, |Encode(f)|)
  {
    var a, b, c := LE(f.mid, 8), LE(f.start, 8), LE(LengthField(f.data), 2);
    var w := [FRAME_DATA] + a + b + c + f.data + rest;
    FiveFields(FRAME_DATA, a, b, c, f.data, rest);
    ParseData(w, f.mid, f.start, f.data);
    assert Encode(f) + rest == w && Parse(w) == ParseDataFrame(w);
  }

  lemma ParseRaw(w: seq<u8>, data: seq<u8>)
    requires |data| < 0x1_0000 && |w| >= 3 + |data|
    requires w[1..3] == LE(LengthField(data), 2) && w[3..3 + |data|] == data
    ensures ParseRawFrame(w) == Got(Raw(data), 3 + |data|)
  {
    U16ReadBack(LengthField(data));
  }

  lemma ParseEncodeRaw(f: Frame, rest: seq<u8>)
    requires f.Raw? && Fits(f)
    ensures Parse(Encode(f) + rest) == Got(f, |Encode(f)|)
  {
    var c := LE(LengthField(f.data), 2);
    var w := [FRAME_RAW] + c + f.data + rest;
    ThreeFields(FRAME_RAW, c, f.data, rest);
    ParseRaw(w, f.data);
    assert Encode(f) + rest == w && Parse(w) == ParseRawFrame(w);
  }

  /** Whatever follows it, an encoded frame that fits is read back, and exactly its bytes are used. */
  lemma ParseEncode(f: Frame, rest: seq<u8>)
    requires Fits(f)
    ensures Parse(Encode(f) + rest) == Got(f, |Encode(f)|)
  {
    match f
    case Handshake(_, _) => ParseEncodeHandshake(f, rest);
    case Init(_, _) => ParseEncodeInit(f, rest);
    case Shutdown =>
    case OpenStream(_, _, _) => ParseEncodeOpen(f, rest);
    case CloseStream(_) => ParseEncodeClose(f, rest);
    case DataHeader(_, _, _) => ParseEncodeHeader(f, rest);
    case Data(_, _, _) => ParseEncodeData(f, rest);
    case Raw(_) => ParseEncodeRaw(f, rest);
  }

  lemma SliceOfSlice(b: seq<u8>, i: nat, j: nat, k: nat, l: nat)
    requires i <= j <= |b| && k <= l <= j - i
    ensures b[i..j][k..l] == b[i + k..i + l]
  {
    var x, y := b[i..j][k..l], b[i + k..i + l];
    assert forall m :: 0 <= m < l - k ==> x[m] == y[m];
  }

  /** A frame that has not arrived completely is not reported. */
  lemma ParsePrefix(w: seq<u8>, k: nat)
    requires Parse(w).Got? && k < Parse(w).used
    ensures Parse(w[..k]) == Incomplete
  {
    if w[0] == FRAME_DATA && k >= 19 {
      SliceOfSlice(w, 0, k, 17, 19);
    } else if w[0] == FRAME_RAW && k >= 3 {
      SliceOfSlice(w, 0, k, 1, 3);
    }
  }

  /** A payload too long for the length field is cut short: the reader sees another frame. */
  lemma ParseOversized(f: Frame, rest: seq<u8>)
    requires !Fits(f)
    ensures Parse(Encode(f) + rest).Got? && Parse(Encode(f) + rest).frame != f
  {
  }

  /** Consecutive slices make up the whole prefix. */
  lemma Glue(b: seq<u8>, i: nat, j: nat, k: nat, l: nat, m: nat)
    requires 1 <= i <= j <= k <= l <= m <= |b|
    ensures [b[0]] + b[1..i] == b[..i]
    ensures [b[0]] + b[1..i] + b[i..j] == b[..j]
    ensures [b[0]] + b[1..i] + b[i..j] + b[j..k] == b[..k]
    ensures [b[0]] + b[1..i] + b[i..j] + b[j..k] + b[k..l] == b[..l]
  {
  }

  lemma EncodeParseSetup(b: seq<u8>)
    requires Parse(b).Got? && (b[0] == FRAME_HANDSHAKE || b[0] == FRAME_INIT)
    ensures Encode(Parse(b).frame) == b[..Parse(b).used]
  {
    if b[0] == FRAME_HANDSHAKE {
      WriteBack(b[8..12]); WriteBack(b[12..16]); WriteBack(b[16..20]);
      Glue(b, 8, 12, 16, 20, 20);
    } else {
      WriteBack(b[1..17]); WriteBack(b[17..33]);
      Glue(b, 17, 33, 33, 33, 33);
    }
  }

  lemma EncodeParseStream(b: seq<u8>)
    requires Parse(b).Got? && FRAME_SHUTDOWN <= b[0] <= FRAME_DATA_HEADER
    ensures Encode(Parse(b).frame) == b[..Parse(b).used]
  {
    if b[0] == FRAME_OPEN_STREAM {
      WriteBack(b[1..9]);
      assert [b[9]] == b[9..10] && [b[10]] == b[10..11];
      Glue(b, 9, 10, 11, 11, 11);
    } else if b[0] == FRAME_CLOSE_STREAM {
      WriteBack(b[1..9]);
      Glue(b, 9, 9, 9, 9, 9);
    } else if b[0] == FRAME_DATA_HEADER {
      WriteBack(b[1..9]); WriteBack(b[9..17]); WriteBack(b[17..25]);
      Glue(b, 9, 17, 25, 25, 25);
    }
  }

  /** The payload of a data frame starts behind 19 bytes and is as long as the length field says. */
  lemma DataFields(b: seq<u8>, f: Frame, used: nat)
    requires ParseDataFrame(b) == Got(f, used)
    ensures f == Data(U64(b[1..9]), U64(b[9..17]), b[19..used]) && LengthField(f.data) == U16(b[17..19])
  {
  }

  lemma EncodeParseData(b: seq<u8>, f: Frame, used: nat)
    requires b != [] && b[0] == FRAME_DATA && ParseDataFrame(b) == Got(f, used)
    ensures Encode(f) == b[..used]
  {
    DataFields(b, f, used);
    assert LE(f.mid, 8) == b[1..9] by { WriteBack(b[1..9]); }
    assert LE(f.start, 8) == b[9..17] by { WriteBack(b[9..17]); }
    assert LE(LengthField(f.data), 2) == b[17..19] by { WriteBack(b[17..19]); }
    Glue(b, 9, 17, 19, used, used);
  }

  lemma EncodeParseRaw(b: seq<u8>)
    requires Parse(b).Got? && b[0] == FRAME_RAW
    ensures Encode(Parse(b).frame) == b[..Parse(b).used]
  {
    WriteBack(b[1..3]);
    Glue(b, 3, Parse(b).used, Parse(b).used, Parse(b).used, Parse(b).used);
  }

  /** A frame read under a known tag is written back as the very bytes it was read from. */
  lemma EncodeParse(b: seq<u8>)
    requires Parse(b).Got? && 1 <= b[0] <= 8
    ensures Fits(Parse(b).frame) && Encode(Parse(b).frame) == b[..Parse(b).used]
  {
    if b[0] <= FRAME_INIT {
      EncodeParseSetup(b);
    } else if b[0] <= FRAME_DATA_HEADER {
      EncodeParseStream(b);
    } else if b[0] == FRAME_DATA {
      EncodeParseData(b, Parse(b).frame, Parse(b).used);
    } else {
      EncodeParseRaw(b);
    }
  }

  // ----- the stream -----

  /** How many of `fs` lie completely within the first `k` bytes of their encoding. */
  function Arrived(fs: seq<Frame>, k: nat): (n: nat)
    ensures n <= |fs|
  {
    if fs == [] || k < |Encode(fs[0])| then 0 else 1 + Arrived(fs[1..], k - |Encode(fs[0])|)
  }

  lemma FirstFrame(f: Frame, tail: seq<u8>)
    requires Fits(f)
    ensures ParseAll(Encode(f) + tail) == [f] + ParseAll(tail)
  {
    ParseEncode(f, tail);
    assert (Encode(f) + tail)[|Encode(f)|..] == tail;
  }

  lemma CutFirst(f: Frame, tail: seq<u8>, k: nat)
    requires Fits(f) && k < |Encode(f)|
    ensures ParseAll((Encode(f) + tail)[..k]) == []
  {
    ParseEncode(f, tail);
    ParsePrefix(Encode(f) + tail, k);
  }

  lemma CutBehind(head: seq<u8>, tail: seq<u8>, k: nat, j: nat)
    requires k == |head| + j && j <= |tail|
    ensures (head + tail)[..k] == head + tail[..j]
  {
  }

  lemma {:induction false} ArrivedFirst(fs: seq<Frame>, k: nat, rest: seq<Frame>, j: nat)
    requires fs != [] && rest == fs[1..] && k == |Encode(fs[0])| + j
    ensures fs[..Arrived(fs, k)] == [fs[0]] + rest[..Arrived(rest, j)]
  {
  }

  /** Cut the byte stream anywhere: what can be read is exactly the frames that arrived completely. */
  lemma {:induction false} StreamPrefix(fs: seq<Frame>, k: nat)
    requires AllFit(fs) && k <= |EncodeAll(fs)|
    ensures ParseAll(EncodeAll(fs)[..k]) == fs[..Arrived(fs, k)]
  {
    if fs != [] {
      var head, rest := Encode(fs[0]), fs[1..];
      var tail := EncodeAll(rest);
      if k < |head| {
        CutFirst(fs[0], tail, k);
      } else {
        var j := k - |head|;
        CutBehind(head, tail, k, j);
        FirstFrame(fs[0], tail[..j]);
        StreamPrefix(rest, j);
        ArrivedFirst(fs, k, rest, j);
      }
    }
  }

  /** Round trip of the TCP stream: it is exact iff every payload fits the length field. */
  lemma {:induction false} StreamRoundTrip(fs: seq<Frame>)
    ensures ParseAll(EncodeAll(fs)) == fs <==> AllFit(fs)
  {
    if fs != [] {
      var rest := fs[1..];
      var tail := EncodeAll(rest);
      assert fs == [fs[0]] + rest;
      if Fits(fs[0]) {
        FirstFrame(fs[0], tail);
        StreamRoundTrip(rest);
        assert ([fs[0]] + ParseAll(tail))[1..] == ParseAll(tail);
      } else {
        ParseOversized(fs[0], tail);
      }
    }
  }

  // ----- the TCP protocol -----

  /** A byte stream between two sockets, written at one end and read at the other. */
  class Wire {
    var bytes: seq<u8>

    constructor ()
      ensures bytes == []
    {
      bytes := [];
    }

    method WriteAll(b: seq<u8>)
      modifies this
      ensures bytes == old(bytes) + b
    {
      bytes := bytes + b;
    }

    /** `read_or_close`: `None` asks the caller to shut down. */
    method ReadExact(n: nat) returns (r: Option<seq<u8>>)
      modifies this
      ensures |old(bytes)| < n ==> r == None && bytes == old(bytes)
      ensures |old(bytes)| >= n ==> r == Some(old(bytes)[..n]) && bytes == old(bytes)[n..]
    {
      if |bytes| < n {
        r := None;
      } else {
        r := Some(bytes[..n]);
        bytes := bytes[n..];
      }
    }
  }

  lemma Appended(before: seq<u8>, t: seq<u8>, a: seq<u8>, b: seq<u8>, c: seq<u8>, d: seq<u8>)
    ensures before + t + a == before + (t + a)
    ensures before + t + a + b == before + (t + a + b)
    ensures before + t + a + b + c == before + (t + a + b + c)
    ensures before + t + a + b + c + d == before + (t + a + b + c + d)
  {
  }

  /** One turn of `TcpProtocol::write_to_wire`. */
  method TcpWriteFrame(wire: Wire, frame: Frame)
    modifies wire
    ensures wire.bytes == old(wire.bytes) + Encode(frame)
  {
    ghost var before := wire.bytes;
    match frame
    case Handshake(magic, version) =>
      wire.WriteAll([FRAME_HANDSHAKE]);
      wire.WriteAll(magic);
      wire.WriteAll(LE(version.major, 4));
      wire.WriteAll(LE(version.minor, 4));
      wire.WriteAll(LE(version.patch, 4));
      Appended(before, [FRAME_HANDSHAKE], magic, LE(version.major, 4), LE(version.minor, 4), LE(version.patch, 4));
    case Init(pid, secret) =>
      wire.WriteAll([FRAME_INIT]);
      wire.WriteAll(LE(pid, 16));
      wire.WriteAll(LE(secret, 16));
      Appended(before, [FRAME_INIT], LE(pid, 16), LE(secret, 16), [], []);
    case Shutdown =>
      wire.WriteAll([FRAME_SHUTDOWN]);
    case OpenStream(sid, prio, promises) =>
      wire.WriteAll([FRAME_OPEN_STREAM]);
      wire.WriteAll(LE(sid, 8));
      wire.WriteAll([prio]);
      wire.WriteAll([promises]);
      Appended(before, [FRAME_OPEN_STREAM], LE(sid, 8), [prio], [promises], []);
    case CloseStream(sid) =>
      wire.WriteAll([FRAME_CLOSE_STREAM]);
      wire.WriteAll(LE(sid, 8));
      Appended(before, [FRAME_CLOSE_STREAM], LE(sid, 8), [], [], []);
    case DataHeader(mid, sid, length) =>
      wire.WriteAll([FRAME_DATA_HEADER]);
      wire.WriteAll(LE(mid, 8));
      wire.WriteAll(LE(sid, 8));
      wire.WriteAll(LE(length, 8));
      Appended(before, [FRAME_DATA_HEADER], LE(mid, 8), LE(sid, 8), LE(length, 8), []);
    case Data(mid, start, data) =>
      wire.WriteAll([FRAME_DATA]);
      wire.WriteAll(LE(mid, 8));
      wire.WriteAll(LE(start, 8));
      wire.WriteAll(LE(LengthField(data), 2));
      wire.WriteAll(data);
      Appended(before, [FRAME_DATA], LE(mid, 8), LE(start, 8), LE(LengthField(data), 2), data);
    case Raw(data) =>
      wire.WriteAll([FRAME_RAW]);
      wire.WriteAll(LE(LengthField(data), 2));
      wire.WriteAll(data);
      Appended(before, [FRAME_RAW], LE(LengthField(data), 2), data, [], []);
  }

  method TcpWriteToWire(wire: Wire, frames: seq<Frame>)
    modifies wire
    ensures wire.bytes == old(wire.bytes) + EncodeAll(frames)
  {
    for i := 0 to |frames|
      invariant wire.bytes + EncodeAll(frames[i..]) == old(wire.bytes) + EncodeAll(frames)
    {
      ghost var before, rest := wire.bytes, EncodeAll(frames[i + 1..]);
      assert EncodeAll(frames[i..]) == Encode(frames[i]) + rest by {
        assert frames[i..][1..] == frames[i + 1..];
      }
      TcpWriteFrame(wire, frames[i]);
      Appended(before, Encode(frames[i]), rest, [], [], []);
    }
  }

  /** The fields of a connection setup frame, read once its tag is known. */
  method TcpReadSetup(wire: Wire, frameNo: u8, ghost b: seq<u8>) returns (r: Option<Frame>)
    requires |b| > 0 && b[0] == frameNo && wire.bytes == b[1..]
    requires frameNo == FRAME_HANDSHAKE || frameNo == FRAME_INIT
    modifies wire
    ensures Parse(b).Incomplete? ==> r == None
    ensures Parse(b).Got? ==> r == Some(Parse(b).frame) && wire.bytes == b[Parse(b).used..]
  {
    r := None;
    if frameNo == FRAME_HANDSHAKE {
      var bytes := wire.ReadExact(19);
      if bytes == None { return; }
      SliceOfSlice(b, 1, 20, 0, 7);
      SliceOfSlice(b, 1, 20, 7, 11);
      SliceOfSlice(b, 1, 20, 11, 15);
      SliceOfSlice(b, 1, 20, 15, 19);
      assert bytes.value == b[1..20];
      r := Some(Handshake(bytes.value[0..7],
                          Version(U32(bytes.value[7..11]), U32(bytes.value[11..15]), U32(bytes.value[15..19]))));
    } else {
      var pid := wire.ReadExact(16);
      if pid == None { return; }
      var secret := wire.ReadExact(16);
      if secret == None { return; }
      assert pid.value == b[1..17] && secret.value == b[17..33];
      r := Some(Init(U128(pid.value), U128(secret.value)));
    }
  }

  /** The fields of a stream or message control frame. */
  method TcpReadControl(wire: Wire, frameNo: u8, ghost b: seq<u8>) returns (r: Option<Frame>)
    requires |b| > 0 && b[0] == frameNo && wire.bytes == b[1..]
    requires FRAME_SHUTDOWN <= frameNo <= FRAME_DATA_HEADER
    modifies wire
    ensures Parse(b).Incomplete? ==> r == None
    ensures Parse(b).Got? ==> r == Some(Parse(b).frame) && wire.bytes == b[Parse(b).used..]
  {
    r := None;
    if frameNo == FRAME_SHUTDOWN {
      r := Some(Shutdown);
    } else if frameNo == FRAME_OPEN_STREAM {
      var bytes := wire.ReadExact(10);
      if bytes == None { return; }
      assert bytes.value == b[1..11];
      SliceOfSlice(b, 1, 11, 0, 8);
      r := Some(OpenStream(U64(bytes.value[0..8]), bytes.value[8], bytes.value[9]));
    } else if frameNo == FRAME_CLOSE_STREAM {
      var bytes := wire.ReadExact(8);
      if bytes == None { return; }
      assert bytes.value[0..8] == b[1..9];
      r := Some(CloseStream(U64(bytes.value[0..8])));
    } else {
      var bytes := wire.ReadExact(24);
      if bytes == None { return; }
      assert bytes.value == b[1..25];
      SliceOfSlice(b, 1, 25, 0, 8);
      SliceOfSlice(b, 1, 25, 8, 16);
      SliceOfSlice(b, 1, 25, 16, 24);
      r := Some(DataHeader(U64(bytes.value[0..8]), U64(bytes.value[8..16]), U64(bytes.value[16..24])));
    }
  }

  /** The fields of a data frame. */
  method TcpReadData(wire: Wire, ghost b: seq<u8>) returns (r: Option<Frame>)
    requires |b| > 0 && b[0] == FRAME_DATA && wire.bytes == b[1..]
    modifies wire
    ensures Parse(b).Incomplete? ==> r == None
    ensures Parse(b).Got? ==> r == Some(Parse(b).frame) && wire.bytes == b[Parse(b).used..]
  {
    r := None;
    var bytes := wire.ReadExact(18);
    if bytes == None { return; }
    assert bytes.value == b[1..19];
    SliceOfSlice(b, 1, 19, 0, 8);
    SliceOfSlice(b, 1, 19, 8, 16);
    SliceOfSlice(b, 1, 19, 16, 18);
    var mid, start, length := U64(bytes.value[0..8]), U64(bytes.value[8..16]), U16(bytes.value[16..18]);
    var data := wire.ReadExact(length);
    if data == None { return; }
    assert data.value == b[19..19 + length];
    r := Some(Data(mid, start, data.value));
  }

  /** The payload of a raw frame, and the guess made under an unknown tag. */
  method TcpReadRaw(wire: Wire, frameNo: u8, ghost b: seq<u8>) returns (r: Option<Frame>)
    requires |b| > 0 && b[0] == frameNo && wire.bytes == b[1..]
    requires !(FRAME_HANDSHAKE <= frameNo <= FRAME_DATA)
    modifies wire
    ensures Parse(b).Incomplete? ==> r == None
    ensures Parse(b).Got? ==> r == Some(Parse(b).frame) && wire.bytes == b[Parse(b).used..]
  {
    r := None;
    if frameNo == FRAME_RAW {
      var bytes := wire.ReadExact(2);
      if bytes == None { return; }
      assert bytes.value == b[1..3];
      var length := U16(bytes.value);
      var data := wire.ReadExact(length);
      if data == None { return; }
      assert data.value == b[3..3 + length];
      r := Some(Raw(data.value));
    } else {
      // keep the first byte
      var data := wire.ReadExact(31);
      if data == None { return; }
      assert [frameNo] + data.value == b[..32];
      r := Some(Raw([frameNo] + data.value));
    }
  }

  /** One turn of `TcpProtocol::read_from_wire`. */
  method TcpReadFrame(wire: Wire) returns (r: Option<Frame>)
    modifies wire
    ensures r == None ==> ParseAll(old(wire.bytes)) == []
    ensures r != None ==> |wire.bytes| < |old(wire.bytes)|
                          && ParseAll(old(wire.bytes)) == [r.value] + ParseAll(wire.bytes)
  {
    ghost var b := wire.bytes;
    var tag := wire.ReadExact(1);
    if tag == None { return None; }
    var frameNo := tag.value[0];
    if frameNo == FRAME_HANDSHAKE || frameNo == FRAME_INIT {
      r := TcpReadSetup(wire, frameNo, b);
    } else if FRAME_SHUTDOWN <= frameNo <= FRAME_DATA_HEADER {
      r := TcpReadControl(wire, frameNo, b);
    } else if frameNo == FRAME_DATA {
      r := TcpReadData(wire, b);
    } else {
      r := TcpReadRaw(wire, frameNo, b);
    }
  }

  lemma JoinedFrames(a: seq<Frame>, b: seq<Frame>, c: seq<Frame>)
    ensures a + b + c == a + (b + c)
  {
  }

  /** `TcpProtocol::read_from_wire`: until the input ends in the middle of a frame. */
  method TcpReadFromWire(wire: Wire) returns (frames: seq<Frame>)
    modifies wire
    ensures frames == ParseAll(old(wire.bytes))
  {
    frames := [];
    ghost var whole := wire.bytes;
    while true
      invariant frames + ParseAll(wire.bytes) == ParseAll(whole)
      decreases |wire.bytes|
    {
      var frame := TcpReadFrame(wire);
      if frame == None { break; }
      JoinedFrames(frames, [frame.value], ParseAll(wire.bytes));
      frames := frames + [frame.value];
    }
  }

  /** Both ends together: every list of frames that fit crosses a TCP connection unchanged. */
  method TcpTransfer(frames: seq<Frame>) returns (received: seq<Frame>)
    ensures received == frames <==> AllFit(frames)
  {
    var wire := new Wire();
    TcpWriteToWire(wire, frames);
    assert wire.bytes == EncodeAll(frames);
    StreamRoundTrip(frames);
    received := TcpReadFromWire(wire);
  }

  // ----- the UDP protocol -----

  /** One frame per datagram; `None` where the reader panics on a slice or a copy of the wrong length. */
  function UdpDecode(b: seq<u8>): Option<Frame> {
    if |b| == 0 then None
    else if b[0] == FRAME_HANDSHAKE then
      if |b| < 20 then None
      else Some(Handshake(b[1..8], Version(U32(b[8..12]), U32(b[12..16]), U32(b[16..20]))))
    else if b[0] == FRAME_INIT then
      if |b| < 33 then None else Some(Init(U128(b[1..17]), U128(b[17..33])))
    else if b[0] == FRAME_SHUTDOWN then Some(Shutdown)
    else if b[0] == FRAME_OPEN_STREAM then
      if |b| < 11 then None else Some(OpenStream(U64(b[1..9]), b[9], b[10]))
    else if b[0] == FRAME_CLOSE_STREAM then
      if |b| < 9 then None else Some(CloseStream(U64(b[1..9])))
    else if b[0] == FRAME_DATA_HEADER then
      if |b| < 25 then None else Some(DataHeader(U64(b[1..9]), U64(b[9..17]), U64(b[17..25])))
    else if b[0] == FRAME_DATA then
      if |b| < 19 || |b| - 19 != U16(b[17..19]) then None
      else Some(Data(U64(b[1..9]), U64(b[9..17]), b[19..]))
    else if b[0] == FRAME_RAW then
      if |b| < 3 || |b| - 3 != U16(b[1..3]) then None else Some(Raw(b[3..]))
    else Some(Raw(b))
  }

  /**
   * A datagram that does not panic the UDP reader holds what a TCP reader would see in the same bytes, if
   * and only if its tag is known, or it has just the 32 bytes that the TCP reader guesses.
   */
  lemma FormatsAgree(b: seq<u8>)
    requires |b| > 0
    ensures UdpDecode(b).Some? ==>
      (Parse(b).Got? && Parse(b).frame == UdpDecode(b).value <==> 1 <= b[0] <= 8 || |b| == 32)
    ensures Parse(b).Got? && Parse(b).used == |b| ==> UdpDecode(b) == Some(Parse(b).frame)
  {
    if !(1 <= b[0] <= 8) { TagUnknown(b); }
  }

  lemma TagUnknown(b: seq<u8>)
    requires |b| > 0 && !(1 <= b[0] <= 8)
    ensures UdpDecode(b) == Some(Raw(b))
    ensures Parse(b) == if |b| < 32 then Incomplete else Got(Raw(b[..32]), 32)
    ensures |b| >= 32 ==> (b[..32] == b <==> |b| == 32)
  {
  }

  /** Datagram round trip: exact for every frame that fits the length field, a panic for any other. */
  lemma DatagramRoundTrip(f: Frame)
    ensures UdpDecode(Encode(f)) == Some(f) <==> Fits(f)
    ensures UdpDecode(Encode(f)) == None <==> !Fits(f)
  {
    var b := Encode(f);
    assert b + [] == b;
    if Fits(f) {
      ParseEncode(f, []);
      FormatsAgree(b);
    } else {
      U16ReadBack(LengthField(f.data));
      match f
      case Data(mid, start, data) =>
        FourFields(FRAME_DATA, LE(mid, 8), LE(start, 8), LE(LengthField(data), 2), data);
      case Raw(data) =>
        TwoFields(FRAME_RAW, LE(LengthField(data), 2), data);
    }
  }

  /** `buffer[lo..lo + bytes.len()].copy_from_slice(bytes)`, in a buffer filled from the front. */
  method CopyFromSlice(buffer: array<u8>, lo: nat, bytes: seq<u8>)
    requires lo + |bytes| <= buffer.Length
    modifies buffer
    ensures buffer[..lo + |bytes|] == old(buffer[..lo]) + bytes
  {
    forall k | 0 <= k < |bytes| {
      buffer[lo + k] := bytes[k];
    }
  }

  /** Assembles a datagram in place: the first `len` bytes of the buffer are the frame's encoding. */
  method UdpFillBuffer(buffer: array<u8>, frame: Frame) returns (len: nat)
    requires buffer.Length == UDP_BUFFER
    requires |Encode(frame)| <= UDP_BUFFER
    modifies buffer
    ensures len <= UDP_BUFFER && buffer[..len] == Encode(frame)
  {
    match frame
    case Handshake(magic, version) =>
      buffer[0] := FRAME_HANDSHAKE;
      assert buffer[..1] == [FRAME_HANDSHAKE];
      CopyFromSlice(buffer, 1, magic);
      CopyFromSlice(buffer, 8, LE(version.major, 4));
      CopyFromSlice(buffer, 12, LE(version.minor, 4));
      CopyFromSlice(buffer, 16, LE(version.patch, 4));
      len := 20;
    case Init(pid, secret) =>
      buffer[0] := FRAME_INIT;
      assert buffer[..1] == [FRAME_INIT];
      CopyFromSlice(buffer, 1, LE(pid, 16));
      CopyFromSlice(buffer, 17, LE(secret, 16));
      len := 33;
    case Shutdown =>
      buffer[0] := FRAME_SHUTDOWN;
      assert buffer[..1] == [FRAME_SHUTDOWN];
      len := 1;
    case OpenStream(sid, prio, promises) =>
      buffer[0] := FRAME_OPEN_STREAM;
      assert buffer[..1] == [FRAME_OPEN_STREAM];
      CopyFromSlice(buffer, 1, LE(sid, 8));
      ghost var filled := buffer[..9];
      buffer[9] := prio;
      buffer[10] := promises;
      assert buffer[..11] == filled + [prio] + [promises];
      len := 11;
    case CloseStream(sid) =>
      buffer[0] := FRAME_CLOSE_STREAM;
      assert buffer[..1] == [FRAME_CLOSE_STREAM];
      CopyFromSlice(buffer, 1, LE(sid, 8));
      len := 9;
    case DataHeader(mid, sid, length) =>
      buffer[0] := FRAME_DATA_HEADER;
      assert buffer[..1] == [FRAME_DATA_HEADER];
      CopyFromSlice(buffer, 1, LE(mid, 8));
      CopyFromSlice(buffer, 9, LE(sid, 8));
      CopyFromSlice(buffer, 17, LE(length, 8));
      len := 25;
    case Data(mid, start, data) =>
      buffer[0] := FRAME_DATA;
      assert buffer[..1] == [FRAME_DATA];
      CopyFromSlice(buffer, 1, LE(mid, 8));
      CopyFromSlice(buffer, 9, LE(start, 8));
      CopyFromSlice(buffer, 17, LE(LengthField(data), 2));
      CopyFromSlice(buffer, 19, data);
      len := 19 + |data|;
    case Raw(data) =>
      buffer[0] := FRAME_RAW;
      assert buffer[..1] == [FRAME_RAW];
      CopyFromSlice(buffer, 1, LE(LengthField(data), 2));
      CopyFromSlice(buffer, 3, data);
      len := 3 + |data|;
  }

  /** The part of the buffer that is sent. */
  method UdpSendFrame(buffer: array<u8>, frame: Frame) returns (datagram: seq<u8>)
    requires buffer.Length == UDP_BUFFER && FitsBuffer(frame)
    modifies buffer
    ensures Carries(datagram, frame)
  {
    var len := UdpFillBuffer(buffer, frame);
    EncodingCarries(frame);
    datagram := buffer[..len];
  }

  /** `UdpProtocol::write_to_wire`: one datagram per frame, all assembled in the same buffer. */
  method UdpWriteToWire(frames: seq<Frame>) returns (datagrams: seq<seq<u8>>)
    requires forall f :: f in frames ==> FitsBuffer(f)
    ensures |datagrams| == |frames|
    ensures forall k :: 0 <= k < |frames| ==> Carries(datagrams[k], frames[k])
  {
    var buffer := new u8[UDP_BUFFER];
    datagrams := [];
    for i := 0 to |frames|
      invariant |datagrams| == i
      invariant forall k :: 0 <= k < i ==> Carries(datagrams[k], frames[k])
    {
      var datagram := UdpSendFrame(buffer, frames[i]);
      datagrams := datagrams + [datagram];
    }
  }

  predicate FitsBuffer(f: Frame) { |Encode(f)| <= UDP_BUFFER }

  /** All frames but those with a payload of more than 1981 bytes, or raw ones of more than 1997. */
  lemma FitsBufferExactly(f: Frame)
    ensures FitsBuffer(f) <==> (f.Data? ==> |f.data| <= 1981) && (f.Raw? ==> |f.data| <= 1997)
  {
    EncodeLayout(f);
  }

  predicate Carries(datagram: seq<u8>, f: Frame) { UdpDecode(datagram) == Some(f) }

  lemma EncodingCarries(f: Frame)
    requires FitsBuffer(f)
    ensures Carries(Encode(f), f)
  {
    DatagramFits(f);
    DatagramRoundTrip(f);
  }

  /** A frame that fits the UDP buffer has a payload that fits the length field. */
  lemma DatagramFits(f: Frame)
    requires |Encode(f)| <= UDP_BUFFER
    ensures Fits(f)
  {
  }
}
