/** The AWS event stream framing (application/vnd.amazon.eventstream) that Bedrock streams in, and the
    loop that turns frames into chunks.

    Go strings are byte sequences here. CRC-32 is an arbitrary function `crc`, JSON and base64 an
    arbitrary partial function `decode`. The encoder is the specification: it is not part of the
    repository, which only reads. */
module EventStream {
  import opened Seqs

  type byte = n: int | 0 <= n < 256
  type u32 = n: int | 0 <= n < 0x1_0000_0000

  // ----- big-endian integers

  function Pow256(k: nat): nat {
    if k == 0 then 1 else 256 * Pow256(k - 1)
  }

  function BE(k: nat, n: nat): (r: seq<byte>)
    ensures |r| == k
  {
    if k == 0 then [] else BE(k - 1, n / 256) + [n % 256]
  }

  function FromBE(s: seq<byte>): (n: nat)
    ensures n < Pow256(|s|)
  {
    if s == [] then 0 else FromBE(Front(s)) * 256 + Last(s)
  }

  lemma {:induction false} FromBEOfBE(k: nat, n: nat)
    requires n < Pow256(k)
    ensures FromBE(BE(k, n)) == n
  {
    if k > 0 {
      FromBEOfBE(k - 1, n / 256);
      assert Front(BE(k, n)) == BE(k - 1, n / 256);
    }
  }

  lemma {:induction false} BEOfFromBE(s: seq<byte>)
    ensures BE(|s|, FromBE(s)) == s
  {
    if s != [] {
      BEOfFromBE(Front(s));
      FrontLast(s);
    }
  }

  /** Two's complement of k bytes. */
  function Signed(k: nat, n: nat): int {
    if 2 * n < Pow256(k) then n else n - Pow256(k)
  }

  function Unsigned(k: nat, i: int): int {
    if i >= 0 then i else i + Pow256(k)
  }

  predicate FitsSigned(k: nat, i: int) {
    0 <= 2 * i + Pow256(k) && 2 * i < Pow256(k)
  }

  // ----- headers

  datatype Value =
    | True
    | False
    | Number(kind: byte, n: int)       // kinds 2 byte, 3 short, 4 int, 5 long, 8 timestamp
    | Blob(kind: byte, bytes: seq<byte>)  // kinds 6 byte array, 7 string
    | Uuid(bytes: seq<byte>)

  datatype Header = Header(name: seq<byte>, value: Value)

  /** Width in bytes of a numeric header value, 0 for the other kinds. */
  function Width(kind: byte): nat {
    if kind == 2 then 1 else if kind == 3 then 2 else if kind == 4 then 4 else if kind == 5 || kind == 8 then 8 else 0
  }

  predicate ValidValue(v: Value) {
    match v
    case True => true
    case False => true
    case Number(kind, n) => Width(kind) > 0 && FitsSigned(Width(kind), n)
    case Blob(kind, bytes) => (kind == 6 || kind == 7) && |bytes| < 65536
    case Uuid(bytes) => |bytes| == 16
  }

  predicate ValidHeader(h: Header) {
    |h.name| < 256 && ValidValue(h.value)
  }

  function Kind(v: Value): byte {
    match v
    case True => 0
    case False => 1
    case Number(kind, _) => kind
    case Blob(kind, _) => kind
    case Uuid(_) => 9
  }

  function EncodeValue(v: Value): seq<byte>
    requires ValidValue(v)
  {
    match v
    case True => []
    case False => []
    case Number(kind, n) => BE(Width(kind), Unsigned(Width(kind), n))
    case Blob(_, bytes) => BE(2, |bytes|) + bytes
    case Uuid(bytes) => bytes
  }

  function EncodeHeader(h: Header): seq<byte>
    requires ValidHeader(h)
  {
    [|h.name|] + h.name + [Kind(h.value)] + EncodeValue(h.value)
  }

  predicate ValidHeaders(hs: seq<Header>) {
    forall i :: 0 <= i < |hs| ==> ValidHeader(hs[i])
  }

  function EncodeHeaders(hs: seq<Header>): seq<byte>
    requires ValidHeaders(hs)
  {
    if hs == [] then [] else EncodeHeader(hs[0]) + EncodeHeaders(hs[1..])
  }

  /** readEventStreamHeaderValue: the value at the front of b, and the unconsumed bytes. */
  function ReadValue(kind: byte, b: seq<byte>): (r: Option<(Value, seq<byte>)>)
    ensures r.Some? ==> |r.value.1| <= |b|
  {
    if kind == 0 then Some((True, b))
    else if kind == 1 then Some((False, b))
    else if Width(kind) > 0 then
      var k := Width(kind);
      if |b| < k then None else Some((Number(kind, Signed(k, FromBE(b[..k]))), b[k..]))
    else if kind == 6 || kind == 7 then
      if |b| < 2 then None else
        var n, c := FromBE(b[..2]), b[2..];
        if |c| < n then None else Some((Blob(kind, c[..n]), c[n..]))
    else if kind == 9 then
      if |b| < 16 then None else Some((Uuid(b[..16]), b[16..]))
    else None
  }

  /** One header entry: name length, name, value type, value. */
  function ReadHeader(b: seq<byte>): (r: Option<(Header, seq<byte>)>)
    requires b != []
    ensures r.Some? ==> |r.value.1| < |b|
  {
    var nameLen: int, c := b[0] as int, b[1..];
    if |c| < nameLen + 1 then None else
      match ReadValue(c[nameLen], c[nameLen + 1..])
      case None => None
      case Some((v, rest)) => Some((Header(c[..nameLen], v), rest))
  }

  function ParseHeaders(b: seq<byte>): Option<seq<Header>>
    decreases |b|
  {
    if b == [] then Some([]) else
      match ReadHeader(b)
      case None => None
      case Some((h, rest)) =>
        match ParseHeaders(rest)
        case None => None
        case Some(hs) => Some([h] + hs)
  }

  lemma SignedOfUnsigned(k: nat, i: int)
    requires FitsSigned(k, i)
    ensures 0 <= Unsigned(k, i) < Pow256(k) && Signed(k, Unsigned(k, i)) == i
  {
  }

  lemma UnsignedOfSigned(k: nat, n: nat)
    requires n < Pow256(k)
    ensures FitsSigned(k, Signed(k, n)) && Unsigned(k, Signed(k, n)) == n
  {
  }

  lemma Prefix(a: seq<byte>, b: seq<byte>)
    ensures (a + b)[..|a|] == a && (a + b)[|a|..] == b
  {
  }

  lemma ReadBlob(kind: byte, len: seq<byte>, bytes: seq<byte>, tail: seq<byte>)
    requires (kind == 6 || kind == 7) && |len| == 2 && FromBE(len) == |bytes|
    ensures ReadValue(kind, len + (bytes + tail)) == Some((Blob(kind, bytes), tail))
  {
    Prefix(len, bytes + tail);
    Prefix(bytes, tail);
  }

  lemma ReadBlobEncoded(kind: byte, bytes: seq<byte>, tail: seq<byte>)
    requires (kind == 6 || kind == 7) && |bytes| < 65536
    ensures ReadValue(kind, BE(2, |bytes|) + bytes + tail) == Some((Blob(kind, bytes), tail))
  {
    assert Pow256(2) == 256 * Pow256(1) == 65536;
    FromBEOfBE(2, |bytes|);
    ReadBlob(kind, BE(2, |bytes|), bytes, tail);
    ConcatAssociates(BE(2, |bytes|), bytes, tail);
  }

  lemma ReadNumberEncoded(kind: byte, n: int, tail: seq<byte>)
    requires ValidValue(Number(kind, n))
    ensures ReadValue(kind, EncodeValue(Number(kind, n)) + tail) == Some((Number(kind, n), tail))
  {
    SignedOfUnsigned(Width(kind), n);
    FromBEOfBE(Width(kind), Unsigned(Width(kind), n));
    Prefix(EncodeValue(Number(kind, n)), tail);
  }

  lemma ReadValueEncoded(v: Value, tail: seq<byte>)
    requires ValidValue(v)
    ensures ReadValue(Kind(v), EncodeValue(v) + tail) == Some((v, tail))
  {
    match v
    case True => assert [] + tail == tail;
    case False => assert [] + tail == tail;
    case Number(kind, n) => ReadNumberEncoded(kind, n, tail);
    case Blob(kind, bytes) => ReadBlobEncoded(kind, bytes, tail);
    case Uuid(bytes) => Prefix(bytes, tail);
  }

  lemma HeaderSlices(n: byte, name: seq<byte>, kind: byte, value: seq<byte>, tail: seq<byte>)
    ensures var b := [n] + name + [kind] + value + tail;
            && b[0] == n && |b[1..]| == |name| + 1 + |value| + |tail| && b[1..][..|name|] == name
            && b[1..][|name|] == kind && b[1..][|name| + 1..] == value + tail
  {
    var b := [n] + name + [kind] + value + tail;
    assert b == [n] + (name + [kind] + (value + tail));
    assert b[1..] == name + [kind] + (value + tail);
  }

  lemma ReadHeaderEncoded(h: Header, tail: seq<byte>)
    requires ValidHeader(h)
    ensures ReadHeader(EncodeHeader(h) + tail) == Some((h, tail))
  {
    HeaderSlices(|h.name|, h.name, Kind(h.value), EncodeValue(h.value), tail);
    ReadValueEncoded(h.value, tail);
  }

  /** Parsing inverts encoding, for every list of headers of every type. */
  lemma {:induction false} ParseHeadersEncoded(hs: seq<Header>)
    requires ValidHeaders(hs)
    ensures ParseHeaders(EncodeHeaders(hs)) == Some(hs)
  {
    if hs != [] {
      ReadHeaderEncoded(hs[0], EncodeHeaders(hs[1..]));
      ParseHeadersEncoded(hs[1..]);
      assert hs == [hs[0]] + hs[1..];
    }
  }

  lemma BlobSplit(b: seq<byte>, n: nat)
    requires |b| >= 2 + n && n == FromBE(b[..2])
    ensures n < 65536 && b == BE(2, n) + b[2..][..n] + b[2..][n..]
  {
    assert Pow256(2) == 256 * Pow256(1) == 65536;
    BEOfFromBE(b[..2]);
  }

  lemma ReadValueSound(kind: byte, b: seq<byte>)
    requires ReadValue(kind, b).Some?
    ensures var (v, rest) := ReadValue(kind, b).value;
            ValidValue(v) && Kind(v) == kind && b == EncodeValue(v) + rest
  {
    var (v, rest) := ReadValue(kind, b).value;
    if Width(kind) > 0 {
      var k := Width(kind);
      UnsignedOfSigned(k, FromBE(b[..k]));
      BEOfFromBE(b[..k]);
      assert b == b[..k] + b[k..];
    } else if kind == 6 || kind == 7 {
      BlobSplit(b, |v.bytes|);
    } else if kind == 9 {
      assert b == b[..16] + b[16..];
    } else {
      assert [] + rest == b;
    }
  }

  lemma HeaderSplit(b: seq<byte>, n: nat)
    requires |b| > n + 1 && b[0] == n
    ensures b == [b[0]] + b[1..][..n] + [b[1..][n]] + b[1..][n + 1..]
  {
  }

  lemma ReadHeaderSound(b: seq<byte>)
    requires b != [] && ReadHeader(b).Some?
    ensures var (h, rest) := ReadHeader(b).value; ValidHeader(h) && b == EncodeHeader(h) + rest
  {
    var (h, rest) := ReadHeader(b).value;
    var n := |h.name|;
    HeaderSplit(b, n);
    ReadValueSound(b[1..][n], b[1..][n + 1..]);
    ConcatAssociates([b[0]] + h.name + [b[1..][n]], EncodeValue(h.value), rest);
  }

  /** Only encodings are accepted: a header section that parses is the encoding of what it parses to. */
  lemma {:induction false} ParseHeadersSound(b: seq<byte>)
    requires ParseHeaders(b).Some?
    ensures ValidHeaders(ParseHeaders(b).value) && EncodeHeaders(ParseHeaders(b).value) == b
    decreases |b|
  {
    if b != [] {
      var (h, rest) := ReadHeader(b).value;
      ReadHeaderSound(b);
      ParseHeadersSound(rest);
      assert ([h] + ParseHeaders(rest).value)[1..] == ParseHeaders(rest).value;
    }
  }

  // ----- frames

  datatype Message = Message(headers: map<seq<byte>, Value>, payload: seq<byte>)

  datatype ReadError =
    | Eof              // nothing left before a prelude: io.EOF itself
    | PreludeCut       // 1 to 11 bytes left: io.ErrUnexpectedEOF
    | CrcMismatch
    | Malformed
    | BodyEof          // nothing left behind a prelude: io.EOF, wrapped
    | BodyCut          // part of a body left: io.ErrUnexpectedEOF, wrapped
    | BadHeader

  datatype ReadResult = Read(message: Message, rest: seq<byte>) | Fail(error: ReadError)

  /** Later headers of the same name replace earlier ones. */
  function HeaderMap(hs: seq<Header>): map<seq<byte>, Value> {
    if hs == [] then map[] else HeaderMap(Front(hs))[Last(hs).name := Last(hs).value]
  }

  /** Headers, payload and checksum of a message are in `rest`: check the checksum, and split the others. */
  function ReadBody(crc: seq<byte> -> u32, prelude: seq<byte>, rest: seq<byte>, headersLen: nat, left: seq<byte>): (r: ReadResult)
    requires headersLen + 4 <= |rest|
    ensures r.Read? ==> r.rest == left
  {
    var n := |rest| - 4;
    if crc(prelude + rest[..n]) != FromBE(rest[n..]) then Fail(CrcMismatch)
    else
      match ParseHeaders(rest[..headersLen])
      case None => Fail(BadHeader)
      case Some(hs) => Read(Message(HeaderMap(hs), rest[headersLen..n]), left)
  }

  /** Behind a prelude, with s left in the reader. */
  function ReadRest(crc: seq<byte> -> u32, prelude: seq<byte>, s: seq<byte>): (r: ReadResult)
    requires |prelude| == 12
    ensures r.Read? ==> |r.rest| + 4 <= |s|
  {
    var total, headersLen := FromBE(prelude[0..4]), FromBE(prelude[4..8]);
    if crc(prelude[0..8]) != FromBE(prelude[8..12]) then Fail(CrcMismatch)
    else if total < 16 || headersLen + 16 > total then Fail(Malformed)
    else if s == [] then Fail(BodyEof)
    else if |s| < total - 12 then Fail(BodyCut)
    else ReadBody(crc, prelude, s[..total - 12], headersLen, s[total - 12..])
  }

  /** readEventStreamMessage on a reader holding s. */
  function ReadMessage(crc: seq<byte> -> u32, s: seq<byte>): (r: ReadResult)
    ensures r.Read? ==> |r.rest| + 16 <= |s|
  {
    if s == [] then Fail(Eof)
    else if |s| < 12 then Fail(PreludeCut)
    else ReadRest(crc, s[..12], s[12..])
  }

  datatype Frame = Frame(headers: seq<Header>, payload: seq<byte>)

  predicate ValidFrame(f: Frame) {
    ValidHeaders(f.headers) && 16 + |EncodeHeaders(f.headers)| + |f.payload| < 0x1_0000_0000
  }

  function Decoded(f: Frame): Message {
    Message(HeaderMap(f.headers), f.payload)
  }

  function Prelude(crc: seq<byte> -> u32, total: nat, headersLen: nat): (r: seq<byte>)
    ensures |r| == 12
  {
    var lengths := BE(4, total) + BE(4, headersLen);
    lengths + BE(4, crc(lengths))
  }

  /** A frame on the wire: prelude, headers, payload, checksum of everything before it. */
  function Encode(crc: seq<byte> -> u32, f: Frame): (r: seq<byte>)
    requires ValidFrame(f)
    ensures |r| == 16 + |EncodeHeaders(f.headers)| + |f.payload|
  {
    var hb := EncodeHeaders(f.headers);
    var body := Prelude(crc, 16 + |hb| + |f.payload|, |hb|) + hb + f.payload;
    body + BE(4, crc(body))
  }

  lemma FourBytes(n: u32)
    ensures FromBE(BE(4, n)) == n
  {
    assert Pow256(4) == 256 * Pow256(3) == 256 * 256 * Pow256(2);
    assert Pow256(2) == 256 * Pow256(1) == 65536;
    FromBEOfBE(4, n);
  }

  /** A prelude that announces these lengths, with a sound checksum. */
  predicate Announces(crc: seq<byte> -> u32, prelude: seq<byte>, total: nat, headersLen: nat) {
    && |prelude| == 12 && FromBE(prelude[0..4]) == total && FromBE(prelude[4..8]) == headersLen
    && FromBE(prelude[8..12]) == crc(prelude[0..8])
  }

  lemma PreludeAnnounces(crc: seq<byte> -> u32, total: u32, headersLen: u32)
    ensures Announces(crc, Prelude(crc, total, headersLen), total, headersLen)
  {
    var p := Prelude(crc, total, headersLen);
    var lengths := BE(4, total) + BE(4, headersLen);
    assert p[0..4] == BE(4, total);
    assert p[4..8] == BE(4, headersLen);
    assert p[0..8] == lengths;
    assert p[8..12] == BE(4, crc(lengths));
    FourBytes(total);
    FourBytes(headersLen);
    FourBytes(crc(lengths));
  }

  lemma ReadRestJoined(crc: seq<byte> -> u32, prelude: seq<byte>, rest: seq<byte>, headersLen: nat, tail: seq<byte>)
    requires headersLen + 4 <= |rest| && Announces(crc, prelude, 12 + |rest|, headersLen)
    ensures ReadRest(crc, prelude, rest + tail) == ReadBody(crc, prelude, rest, headersLen, tail)
  {
    assert (rest + tail)[..|rest|] == rest && (rest + tail)[|rest|..] == tail;
  }

  lemma ReadBodyJoined(
    crc: seq<byte> -> u32, prelude: seq<byte>, hb: seq<byte>, hs: seq<Header>, payload: seq<byte>, sum: seq<byte>, tail: seq<byte>)
    requires ParseHeaders(hb) == Some(hs) && |sum| == 4 && FromBE(sum) == crc(prelude + hb + payload)
    ensures ReadBody(crc, prelude, hb + payload + sum, |hb|, tail) == Read(Message(HeaderMap(hs), payload), tail)
  {
    var rest, n := hb + payload + sum, |hb| + |payload|;
    assert rest[..n] == hb + payload && rest[n..] == sum && rest[..|hb|] == hb && rest[|hb|..n] == payload;
    ConcatAssociates(prelude, hb, payload);
  }

  lemma PreludeFirst(prelude: seq<byte>, hb: seq<byte>, payload: seq<byte>, sum: seq<byte>, tail: seq<byte>)
    ensures prelude + hb + payload + sum + tail == prelude + (hb + payload + sum + tail)
  {
  }

  lemma ReadAfterPrelude(crc: seq<byte> -> u32, prelude: seq<byte>, left: seq<byte>)
    requires |prelude| == 12
    ensures ReadMessage(crc, prelude + left) == ReadRest(crc, prelude, left)
  {
    assert (prelude + left)[..12] == prelude && (prelude + left)[12..] == left;
  }

  lemma ReadJoined(
    crc: seq<byte> -> u32, prelude: seq<byte>, hb: seq<byte>, hs: seq<Header>, payload: seq<byte>, sum: seq<byte>, tail: seq<byte>)
    requires ParseHeaders(hb) == Some(hs) && |sum| == 4 && FromBE(sum) == crc(prelude + hb + payload)
    requires Announces(crc, prelude, 16 + |hb| + |payload|, |hb|)
    ensures ReadMessage(crc, prelude + (hb + payload + sum + tail)) == Read(Message(HeaderMap(hs), payload), tail)
  {
    ReadAfterPrelude(crc, prelude, hb + payload + sum + tail);
    ReadRestJoined(crc, prelude, hb + payload + sum, |hb|, tail);
    ReadBodyJoined(crc, prelude, hb, hs, payload, sum, tail);
  }

  lemma EncodedParts(crc: seq<byte> -> u32, f: Frame, tail: seq<byte>) returns (prelude: seq<byte>, sum: seq<byte>)
    requires ValidFrame(f)
    ensures var hb := EncodeHeaders(f.headers);
            && Announces(crc, prelude, 16 + |hb| + |f.payload|, |hb|)
            && |sum| == 4 && FromBE(sum) == crc(prelude + hb + f.payload)
            && Encode(crc, f) + tail == prelude + (hb + f.payload + sum + tail)
  {
    var hb := EncodeHeaders(f.headers);
    prelude := Prelude(crc, 16 + |hb| + |f.payload|, |hb|);
    sum := BE(4, crc(prelude + hb + f.payload));
    FourBytes(crc(prelude + hb + f.payload));
    PreludeAnnounces(crc, 16 + |hb| + |f.payload|, |hb|);
    PreludeFirst(prelude, hb, f.payload, sum, tail);
  }

  /** Reading inverts encoding, whatever follows the frame. */
  lemma ReadMessageEncoded(crc: seq<byte> -> u32, f: Frame, tail: seq<byte>)
    requires ValidFrame(f)
    ensures ReadMessage(crc, Encode(crc, f) + tail) == Read(Decoded(f), tail)
  {
    var prelude, sum := EncodedParts(crc, f, tail);
    ParseHeadersEncoded(f.headers);
    ReadJoined(crc, prelude, EncodeHeaders(f.headers), f.headers, f.payload, sum, tail);
  }

  lemma FourBytesBack(s: seq<byte>)
    requires |s| == 4
    ensures BE(4, FromBE(s)) == s && FromBE(s) < 0x1_0000_0000
  {
    assert Pow256(4) == 256 * Pow256(3) == 256 * 256 * Pow256(2);
    assert Pow256(2) == 256 * Pow256(1) == 65536;
    BEOfFromBE(s);
  }

  lemma PreludeSound(crc: seq<byte> -> u32, p: seq<byte>)
    requires |p| == 12 && crc(p[0..8]) == FromBE(p[8..12])
    ensures p == Prelude(crc, FromBE(p[0..4]), FromBE(p[4..8]))
  {
    FourBytesBack(p[0..4]);
    FourBytesBack(p[4..8]);
    FourBytesBack(p[8..12]);
    assert p == p[0..4] + p[4..8] + p[8..12] && p[0..8] == p[0..4] + p[4..8];
  }

  lemma BodyJoins(prelude: seq<byte>, rest: seq<byte>, hl: nat)
    requires hl + 4 <= |rest|
    ensures var n := |rest| - 4;
            && prelude + rest[..n] == prelude + rest[..hl] + rest[hl..n]
            && prelude + rest == prelude + rest[..n] + rest[n..]
  {
  }

  lemma BodyRebuilt(crc: seq<byte> -> u32, prelude: seq<byte>, rest: seq<byte>, hl: nat)
    requires hl + 4 <= |rest| && crc(prelude + rest[..|rest| - 4]) == FromBE(rest[|rest| - 4..])
    ensures var body := prelude + rest[..hl] + rest[hl..|rest| - 4]; prelude + rest == body + BE(4, crc(body))
  {
    FourBytesBack(rest[|rest| - 4..]);
    BodyJoins(prelude, rest, hl);
  }

  lemma ReadBodySound(crc: seq<byte> -> u32, prelude: seq<byte>, rest: seq<byte>, hl: nat, left: seq<byte>) returns (f: Frame)
    requires hl + 4 <= |rest| && ReadBody(crc, prelude, rest, hl, left).Read?
    ensures ValidHeaders(f.headers) && |EncodeHeaders(f.headers)| == hl && hl + |f.payload| + 4 == |rest|
    ensures ReadBody(crc, prelude, rest, hl, left).message == Decoded(f)
    ensures var body := prelude + EncodeHeaders(f.headers) + f.payload; prelude + rest == body + BE(4, crc(body))
  {
    ParseHeadersSound(rest[..hl]);
    f := Frame(ParseHeaders(rest[..hl]).value, rest[hl..|rest| - 4]);
    BodyRebuilt(crc, prelude, rest, hl);
  }

  lemma EncodeParts(crc: seq<byte> -> u32, f: Frame, prelude: seq<byte>)
    requires ValidHeaders(f.headers)
    requires var hl := |EncodeHeaders(f.headers)|; Announces(crc, prelude, 16 + hl + |f.payload|, hl)
    ensures ValidFrame(f)
    ensures var body := prelude + EncodeHeaders(f.headers) + f.payload; Encode(crc, f) == body + BE(4, crc(body))
  {
    FourBytesBack(prelude[0..4]);
    PreludeSound(crc, prelude);
  }

  lemma ReadRestSound(crc: seq<byte> -> u32, prelude: seq<byte>, s: seq<byte>) returns (f: Frame)
    requires |prelude| == 12 && ReadRest(crc, prelude, s).Read?
    ensures ValidFrame(f) && prelude + s == Encode(crc, f) + ReadRest(crc, prelude, s).rest
    ensures ReadRest(crc, prelude, s).message == Decoded(f)
  {
    var n, hl := FromBE(prelude[0..4]) - 12, FromBE(prelude[4..8]);
    f := ReadBodySound(crc, prelude, s[..n], hl, s[n..]);
    EncodeParts(crc, f, prelude);
    assert prelude + s == prelude + s[..n] + s[n..];
  }

  /** Only frames are accepted: whatever is read successfully was the encoding of a frame f. */
  lemma ReadMessageSound(crc: seq<byte> -> u32, s: seq<byte>) returns (f: Frame)
    requires ReadMessage(crc, s).Read?
    ensures ValidFrame(f) && s == Encode(crc, f) + ReadMessage(crc, s).rest
    ensures ReadMessage(crc, s).message == Decoded(f)
  {
    f := ReadRestSound(crc, s[..12], s[12..]);
    assert s == s[..12] + s[12..];
  }

  /** What the reader sees of a frame whose first n bytes are present. */
  lemma PreludeOfPrefix(crc: seq<byte> -> u32, f: Frame, n: nat)
    requires ValidFrame(f) && 12 <= n <= |Encode(crc, f)|
    ensures Announces(crc, Encode(crc, f)[..n][..12], |Encode(crc, f)|, |EncodeHeaders(f.headers)|)
  {
    PreludeAnnounces(crc, |Encode(crc, f)|, |EncodeHeaders(f.headers)|);
    assert Encode(crc, f)[..n][..12] == Prelude(crc, |Encode(crc, f)|, |EncodeHeaders(f.headers)|);
  }

  lemma CutRest(crc: seq<byte> -> u32, prelude: seq<byte>, s: seq<byte>, total: nat, hl: nat)
    requires Announces(crc, prelude, total, hl) && hl + 16 <= total && |s| < total - 12
    ensures ReadRest(crc, prelude, s) == Fail(if s == [] then BodyEof else BodyCut)
  {
  }

  /** A frame cut short is an error, and which error depends only on where the cut is. */
  lemma CutFrame(crc: seq<byte> -> u32, f: Frame, n: nat)
    requires ValidFrame(f) && 0 < n < |Encode(crc, f)|
    ensures ReadMessage(crc, Encode(crc, f)[..n]) ==
            Fail(if n < 12 then PreludeCut else if n == 12 then BodyEof else BodyCut)
  {
    if n >= 12 {
      PreludeOfPrefix(crc, f, n);
      var s := Encode(crc, f)[..n];
      CutRest(crc, s[..12], s[12..], |Encode(crc, f)|, |EncodeHeaders(f.headers)|);
    }
  }

  // ----- streams of frames

  /** The loop of the reader alone: all messages, and the error that ends them. */
  datatype Reading = Reading(messages: seq<Message>, end: ReadError)

  function ReadAll(crc: seq<byte> -> u32, s: seq<byte>): Reading
    decreases |s|
  {
    match ReadMessage(crc, s)
    case Fail(e) => Reading([], e)
    case Read(m, rest) => var r := ReadAll(crc, rest); Reading([m] + r.messages, r.end)
  }

  predicate ValidFrames(fs: seq<Frame>) {
    forall i :: 0 <= i < |fs| ==> ValidFrame(fs[i])
  }

  function EncodeAll(crc: seq<byte> -> u32, fs: seq<Frame>): seq<byte>
    requires ValidFrames(fs)
  {
    if fs == [] then [] else Encode(crc, fs[0]) + EncodeAll(crc, fs[1..])
  }

  function DecodedAll(fs: seq<Frame>): seq<Message> {
    if fs == [] then [] else [Decoded(fs[0])] + DecodedAll(fs[1..])
  }

  lemma ReadAllFrame(crc: seq<byte> -> u32, f: Frame, tail: seq<byte>)
    requires ValidFrame(f)
    ensures ReadAll(crc, Encode(crc, f) + tail) ==
            Reading([Decoded(f)] + ReadAll(crc, tail).messages, ReadAll(crc, tail).end)
  {
    ReadMessageEncoded(crc, f, tail);
  }

  lemma {:induction false} ReadAllAppended(crc: seq<byte> -> u32, fs: seq<Frame>, tail: seq<byte>)
    requires ValidFrames(fs)
    ensures ReadAll(crc, EncodeAll(crc, fs) + tail) ==
            Reading(DecodedAll(fs) + ReadAll(crc, tail).messages, ReadAll(crc, tail).end)
  {
    var r := ReadAll(crc, tail);
    if fs == [] {
      assert [] + tail == tail && [] + r.messages == r.messages;
    } else {
      ConcatAssociates(Encode(crc, fs[0]), EncodeAll(crc, fs[1..]), tail);
      ReadAllFrame(crc, fs[0], EncodeAll(crc, fs[1..]) + tail);
      ReadAllAppended(crc, fs[1..], tail);
      ConcatAssociates([Decoded(fs[0])], DecodedAll(fs[1..]), r.messages);
    }
  }

  /** Every sequence of frames is read back exactly, followed by a clean end. */
  lemma StreamRoundTrip(crc: seq<byte> -> u32, fs: seq<Frame>)
    requires ValidFrames(fs)
    ensures ReadAll(crc, EncodeAll(crc, fs)) == Reading(DecodedAll(fs), Eof)
  {
    ReadAllAppended(crc, fs, []);
    assert EncodeAll(crc, fs) + [] == EncodeAll(crc, fs);
    assert DecodedAll(fs) + [] == DecodedAll(fs);
  }

  /** What the stream loop takes for a clean end: any error that wraps io.EOF. */
  predicate LooksClean(e: ReadError) {
    e.Eof? || e.BodyEof?
  }

  /** A stream cut after n bytes of its next frame loses no earlier message, and looks like a clean end
      exactly when the cut is between frames or right behind a 12-byte prelude. */
  lemma CutStream(crc: seq<byte> -> u32, fs: seq<Frame>, f: Frame, n: nat)
    requires ValidFrames(fs) && ValidFrame(f) && n < |Encode(crc, f)|
    ensures var r := ReadAll(crc, EncodeAll(crc, fs) + Encode(crc, f)[..n]);
            r.messages == DecodedAll(fs) && (LooksClean(r.end) <==> n == 0 || n == 12)
  {
    var cut := Encode(crc, f)[..n];
    ReadAllAppended(crc, fs, cut);
    if n > 0 {
      CutFrame(crc, f, n);
    }
    assert DecodedAll(fs) + [] == DecodedAll(fs);
  }

  // ----- reading in place

  datatype IoError = IoEof | IoUnexpectedEof

  class Reader {
    var left: seq<byte>

    constructor (bytes: seq<byte>)
      ensures left == bytes
    {
      left := bytes;
    }

    /** io.ReadFull: all n bytes, or an error that tells whether there were any. */
    method ReadFull(n: nat) returns (buf: seq<byte>, err: Option<IoError>)
      requires n > 0
      modifies this
      ensures err.None? <==> n <= |old(left)|
      ensures err.None? ==> buf == old(left)[..n] && left == old(left)[n..]
      ensures err.Some? ==> err.value.IoEof? == (old(left) == []) && left == []
    {
      if left == [] {
        return [], Some(IoEof);
      }
      if |left| < n {
        buf, left := left, [];
        return buf, Some(IoUnexpectedEof);
      }
      buf, left := left[..n], left[n..];
      return buf, None;
    }
  }

  function MapOf(r: Option<seq<Header>>): Option<map<seq<byte>, Value>> {
    match r
    case None => None
    case Some(hs) => Some(HeaderMap(hs))
  }

  function Prepend(done: seq<Header>, r: Option<seq<Header>>): Option<seq<Header>> {
    match r
    case None => None
    case Some(hs) => Some(done + hs)
  }

  lemma PrependNothing(r: Option<seq<Header>>)
    ensures Prepend([], r) == r
  {
    if r.Some? {
      assert [] + r.value == r.value;
    }
  }

  lemma PrependSnoc(done: seq<Header>, h: Header, r: Option<seq<Header>>)
    ensures Prepend(done + [h], r) == Prepend(done, Prepend([h], r))
  {
    if r.Some? {
      ConcatAssociates(done, [h], r.value);
    }
  }

  method ParseEventStreamHeaders(bytes: seq<byte>) returns (r: Option<map<seq<byte>, Value>>)
    ensures r == MapOf(ParseHeaders(bytes))
  {
    var b, headers := bytes, map[];
    ghost var done: seq<Header> := [];
    PrependNothing(ParseHeaders(bytes));
    while b != []
      invariant headers == HeaderMap(done)
      invariant ParseHeaders(bytes) == Prepend(done, ParseHeaders(b))
      decreases |b|
    {
      var nameLen: int := b[0];
      var c := b[1..];
      if |c| < nameLen + 1 {
        return None;
      }
      var name := c[..nameLen];
      var value := ReadValue(c[nameLen], c[nameLen + 1..]);
      if value.None? {
        return None;
      }
      ghost var h := Header(name, value.value.0);
      assert ReadHeader(b) == Some((h, value.value.1));
      assert Front(done + [h]) == done;
      PrependSnoc(done, h, ParseHeaders(value.value.1));
      headers, b, done := headers[name := value.value.0], value.value.1, done + [h];
    }
    assert done + [] == done;
    return Some(headers);
  }

  method ReadEventStreamMessage(crc: seq<byte> -> u32, r: Reader) returns (res: ReadResult)
    modifies r
    ensures res == ReadMessage(crc, old(r.left))
    ensures res.Read? ==> r.left == res.rest
  {
    var prelude, err := r.ReadFull(12);
    if err.Some? {
      return Fail(if err.value.IoEof? then Eof else PreludeCut);
    }
    var total, headersLen := FromBE(prelude[0..4]), FromBE(prelude[4..8]);
    if crc(prelude[0..8]) != FromBE(prelude[8..12]) {
      return Fail(CrcMismatch);
    }
    if total < 16 || headersLen + 16 > total {
      return Fail(Malformed);
    }
    var rest, err2 := r.ReadFull(total - 12);
    if err2.Some? {
      return Fail(if err2.value.IoEof? then BodyEof else BodyCut);
    }
    var n := |rest| - 4;
    if crc(prelude + rest[..n]) != FromBE(rest[n..]) {
      return Fail(CrcMismatch);
    }
    var headers := ParseEventStreamHeaders(rest[..headersLen]);
    if headers.None? {
      return Fail(BadHeader);
    }
    return Read(Message(headers.value, rest[headersLen..n]), r.left);
  }

  // ----- the stream loop

  function Ascii(s: string): seq<byte> {
    seq(|s|, i requires 0 <= i < |s| => s[i] as int % 256)
  }

  function Digits(n: nat): seq<byte> {
    if n < 10 then [48 + n] else Digits(n / 10) + [48 + n % 10]
  }

  function HexDigit(n: nat): byte
    requires n < 16
  {
    if n < 10 then 48 + n else 87 + n
  }

  function Hex(s: seq<byte>): seq<byte> {
    if s == [] then [] else Hex(Front(s)) + [HexDigit(Last(s) / 16), HexDigit(Last(s) % 16)]
  }

  /** The string that stands for a header value. */
  function Render(v: Value): seq<byte> {
    match v
    case True => Ascii("true")
    case False => Ascii("false")
    case Number(_, n) => if n >= 0 then Digits(n) else Ascii("-") + Digits(-n)
    case Blob(_, bytes) => bytes
    case Uuid(bytes) => Hex(bytes)
  }

  function HeaderText(m: Message, name: string): seq<byte> {
    if Ascii(name) in m.headers then Render(m.headers[Ascii(name)]) else []
  }

  /** The event inside a chunk's payload. */
  datatype Inner =
    | Start(id: seq<byte>, model: seq<byte>, inputTokens: int)
    | TextDelta(text: seq<byte>)
    | OtherDelta
    | Finish(stopReason: seq<byte>, outputTokens: int)
    | Stop
    | Unknown

  datatype Chunk =
    | Text(id: seq<byte>, model: seq<byte>, text: seq<byte>)
    | Final(id: seq<byte>, model: seq<byte>, finishReason: seq<byte>, prompt: int, completion: int, total: int)

  datatype StreamError = Unreadable(cause: ReadError) | Exception(kind: seq<byte>) | Undecodable | Refused

  function NormalizeStopReason(r: seq<byte>): seq<byte> {
    if r == Ascii("end_turn") || r == Ascii("stop_sequence") then Ascii("stop")
    else if r == Ascii("max_tokens") then Ascii("length")
    else if r == Ascii("tool_use") then Ascii("tool_calls")
    else r
  }

  /** Local variables of the loop, the chunks handed to the callback, and the error to return. */
  datatype Stream = Stream(id: seq<byte>, model: seq<byte>, inputTok: int, chunks: seq<Chunk>, done: bool, error: Option<StreamError>)

  function Ended(st: Stream, e: Option<StreamError>): Stream {
    st.(done := true, error := e)
  }

  /** Hand a chunk to the callback, which accepts it or refuses it. */
  function Emit(accept: nat -> bool, st: Stream, c: Chunk): Stream {
    var t := st.(chunks := st.chunks + [c]);
    if accept(|st.chunks|) then t else Ended(t, Some(Refused))
  }

  function Apply(accept: nat -> bool, st: Stream, ev: Inner): Stream {
    match ev
    case Start(id, model, n) => st.(id := id, model := if model != [] then model else st.model, inputTok := n)
    case TextDelta(text) => Emit(accept, st, Text(st.id, st.model, text))
    case Finish(reason, n) =>
      Emit(accept, st, Final(st.id, st.model, NormalizeStopReason(reason), st.inputTok, n, st.inputTok + n))
    case Stop => Ended(st, None)
    case OtherDelta => st
    case Unknown => st
  }

  function Handle(decode: seq<byte> -> Option<Inner>, accept: nat -> bool, st: Stream, m: Message): Stream {
    if HeaderText(m, ":exception-type") != [] then Ended(st, Some(Exception(HeaderText(m, ":exception-type"))))
    else if HeaderText(m, ":event-type") != Ascii("chunk") then st
    else if decode(m.payload).None? then Ended(st, Some(Undecodable))
    else Apply(accept, st, decode(m.payload).value)
  }

  /** The loop over the messages of a reading: what is behind the message that ends it is not looked at. */
  function Dispatch(decode: seq<byte> -> Option<Inner>, accept: nat -> bool, st: Stream, r: Reading): Stream
    decreases |r.messages|
  {
    if st.done then st
    else if r.messages == [] then Ended(st, if LooksClean(r.end) then None else Some(Unreadable(r.end)))
    else Dispatch(decode, accept, Handle(decode, accept, st, r.messages[0]), Reading(r.messages[1..], r.end))
  }

  function Initial(model: seq<byte>): Stream {
    Stream([], model, 0, [], false, None)
  }

  method StreamBedrockEvents(
    crc: seq<byte> -> u32, decode: seq<byte> -> Option<Inner>, accept: nat -> bool, r: Reader, model: seq<byte>)
    returns (st: Stream)
    modifies r
    ensures st == Dispatch(decode, accept, Initial(model), ReadAll(crc, old(r.left)))
  {
    st := Initial(model);
    while !st.done
      invariant Dispatch(decode, accept, Initial(model), ReadAll(crc, old(r.left)))
                == Dispatch(decode, accept, st, ReadAll(crc, r.left))
      decreases !st.done, |r.left|
    {
      ghost var s := r.left;
      var res := ReadEventStreamMessage(crc, r);
      match res
      case Fail(e) => st := Ended(st, if LooksClean(e) then None else Some(Unreadable(e)));
      case Read(m, rest) =>
        assert ReadAll(crc, s).messages[1..] == ReadAll(crc, rest).messages;
        st := Handle(decode, accept, st, m);
    }
  }

  lemma HandleExtends(decode: seq<byte> -> Option<Inner>, accept: nat -> bool, st: Stream, m: Message)
    ensures st.chunks <= Handle(decode, accept, st, m).chunks
  {
  }

  lemma {:induction false} DispatchExtends(decode: seq<byte> -> Option<Inner>, accept: nat -> bool, st: Stream, r: Reading)
    ensures st.chunks <= Dispatch(decode, accept, st, r).chunks
    decreases |r.messages|
  {
    if !st.done && r.messages != [] {
      HandleExtends(decode, accept, st, r.messages[0]);
      DispatchExtends(decode, accept, Handle(decode, accept, st, r.messages[0]), Reading(r.messages[1..], r.end));
    }
  }

  lemma {:induction false} DispatchPrefix(
    decode: seq<byte> -> Option<Inner>, accept: nat -> bool, st: Stream, r: Reading, more: seq<Message>, end: ReadError)
    ensures Dispatch(decode, accept, st, r).chunks <= Dispatch(decode, accept, st, Reading(r.messages + more, end)).chunks
    decreases |r.messages|
  {
    if st.done {
    } else if r.messages == [] {
      DispatchExtends(decode, accept, st, Reading(r.messages + more, end));
    } else {
      assert (r.messages + more)[1..] == r.messages[1..] + more;
      DispatchPrefix(decode, accept, Handle(decode, accept, st, r.messages[0]), Reading(r.messages[1..], r.end), more, end);
    }
  }

  lemma {:induction false} EncodeAllConcat(crc: seq<byte> -> u32, fs: seq<Frame>, gs: seq<Frame>)
    requires ValidFrames(fs) && ValidFrames(gs)
    ensures ValidFrames(fs + gs) && EncodeAll(crc, fs + gs) == EncodeAll(crc, fs) + EncodeAll(crc, gs)
    ensures DecodedAll(fs + gs) == DecodedAll(fs) + DecodedAll(gs)
  {
    if fs == [] {
      assert fs + gs == gs;
    } else {
      assert (fs + gs)[1..] == fs[1..] + gs;
      EncodeAllConcat(crc, fs[1..], gs);
      ConcatAssociates(Encode(crc, fs[0]), EncodeAll(crc, fs[1..]), EncodeAll(crc, gs));
      ConcatAssociates([Decoded(fs[0])], DecodedAll(fs[1..]), DecodedAll(gs));
    }
  }

  lemma CutIsPrefix(crc: seq<byte> -> u32, fs: seq<Frame>, f: Frame, gs: seq<Frame>, n: nat)
    requires ValidFrames(fs) && ValidFrame(f) && ValidFrames(gs) && n < |Encode(crc, f)|
    ensures ValidFrames([f] + gs)
    ensures EncodeAll(crc, fs) + Encode(crc, f)[..n] <= EncodeAll(crc, fs) + EncodeAll(crc, [f] + gs)
  {
    assert ([f] + gs)[0] == f && ([f] + gs)[1..] == gs;
  }

  /** A stream cut anywhere delivers a prefix of the chunks of the whole stream: a cut never invents,
      repeats or reorders one. */
  lemma CutDeliversPrefix(
    crc: seq<byte> -> u32, decode: seq<byte> -> Option<Inner>, accept: nat -> bool, model: seq<byte>,
    fs: seq<Frame>, f: Frame, gs: seq<Frame>, n: nat)
    requires ValidFrames(fs) && ValidFrame(f) && ValidFrames(gs) && n < |Encode(crc, f)|
    ensures var whole := EncodeAll(crc, fs) + EncodeAll(crc, [f] + gs);
            var cut := EncodeAll(crc, fs) + Encode(crc, f)[..n];
            cut <= whole &&
            Dispatch(decode, accept, Initial(model), ReadAll(crc, cut)).chunks
            <= Dispatch(decode, accept, Initial(model), ReadAll(crc, whole)).chunks
  {
    var cut := EncodeAll(crc, fs) + Encode(crc, f)[..n];
    CutIsPrefix(crc, fs, f, gs, n);
    CutStream(crc, fs, f, n);
    EncodeAllConcat(crc, fs, [f] + gs);
    StreamRoundTrip(crc, fs + ([f] + gs));
    DispatchPrefix(decode, accept, Initial(model), ReadAll(crc, cut), DecodedAll([f] + gs), Eof);
  }
}
