/**
 The `.wenc` container, as its printer writes it and its reader consumes it byte by byte, and the point
 inside a published OpenPGP key packet (lengths of section 4.2.2 of RFC 4880). Sealing is HPKE (RFC 9180),
 given as a function that opening undoes.
 */
module Container {
  import opened Wrappers

  type Byte = b: int | 0 <= b < 256

  const MAGIC: seq<Byte> := [0x57, 0x45, 0x4e, 0x43]
  const VERSION: Byte := 1
  const KEM_P256_HKDF_SHA256 := 0x0010
  const KDF_HKDF_SHA256 := 0x0001
  const AEAD_AES256GCM := 0x0002
  const LIMIT := 0x1_0000

  datatype Message = Message(recipient: seq<Byte>, enc: seq<Byte>, ct: seq<Byte>, header: seq<Byte>)

  datatype Fault = BadMagic | BadVersion | TruncatedHeader | BadSuite
                 | TruncatedRecipient | TruncatedEncLength | TruncatedEnc

  /** Sixteen bits, most significant byte first; a longer number is cut to its low sixteen. */
  function Big16(n: nat): (s: seq<Byte>)
    ensures |s| == 2
  {
    var low := n % LIMIT;
    [low / 256, low % 256]
  }

  function Read16(s: seq<Byte>): (n: nat)
    requires |s| >= 2
    ensures n < LIMIT
  {
    s[0] as int * 256 + s[1]
  }

  lemma ReadsBack(n: nat)
    ensures Read16(Big16(n)) == n % LIMIT
  {
  }

  lemma WritesBack(s: seq<Byte>)
    requires |s| == 2
    ensures Big16(Read16(s)) == s
  {
  }

  /** The high byte comes first, printed and read. */
  lemma HighByteFirst(high: Byte, low: Byte)
    ensures Big16(high as int * 256 + low) == [high, low] && Read16([high, low]) == high as int * 256 + low
  {
    var n: nat := high as int * 256 + low;
    assert n % LIMIT == n;
    assert n / 256 == high as int;
  }

  const SUITE: seq<Byte> := Big16(KEM_P256_HKDF_SHA256) + Big16(KDF_HKDF_SHA256) + Big16(AEAD_AES256GCM)
  const OPENING: seq<Byte> := MAGIC + [VERSION] + SUITE

  /** Every container opens with the same eleven bytes: W, E, N, C, version one, and the suite's three numbers. */
  lemma OpeningBytes()
    ensures OPENING == [0x57, 0x45, 0x4E, 0x43, 1, 0, 0x10, 0, 1, 0, 2]
  {
    HighByteFirst(0, 0x10);
    HighByteFirst(0, 1);
    HighByteFirst(0, 2);
  }

  function Marshal(recipient: seq<Byte>, enc: seq<Byte>): (h: seq<Byte>)
    ensures |h| == 15 + |recipient| + |enc|
  {
    OPENING + Big16(|recipient|) + recipient + Big16(|enc|) + enc
  }

  method MarshalWencHeader(recipient: seq<Byte>, enc: seq<Byte>) returns (b: seq<Byte>)
    ensures b == Marshal(recipient, enc)
  {
    b := MAGIC;
    b := b + [VERSION];
    b := b + Big16(KEM_P256_HKDF_SHA256);
    b := b + Big16(KDF_HKDF_SHA256);
    b := b + Big16(AEAD_AES256GCM);
    assert b == OPENING;
    b := b + Big16(|recipient|);
    b := b + recipient;
    b := b + Big16(|enc|);
    b := b + enc;
  }

  /** After the suite: a length and that many bytes, another length and that many bytes, then the rest. */
  function ParseParts(blob: seq<Byte>): Result<Message, Fault>
    requires |blob| >= 11
  {
    if |blob| < 13 then Err(TruncatedHeader)
    else
      var r := Read16(blob[11..]);
      if |blob| < 13 + r then Err(TruncatedRecipient)
      else if |blob| < 15 + r then Err(TruncatedEncLength)
      else
        var e := Read16(blob[13 + r..]);
        if |blob| < 15 + r + e then Err(TruncatedEnc)
        else Ok(Message(blob[13..13 + r], blob[15 + r..15 + r + e], blob[15 + r + e..], blob[..15 + r + e]))
  }

  /** The lengths are read before the suite is judged. */
  function Parse(blob: seq<Byte>): Result<Message, Fault> {
    if |blob| < 4 || blob[..4] != MAGIC then Err(BadMagic)
    else if |blob| < 5 || blob[4] != VERSION then Err(BadVersion)
    else if |blob| < 13 then Err(TruncatedHeader)
    else if blob[5..11] != SUITE then Err(BadSuite)
    else ParseParts(blob)
  }

  class Reader {
    const blob: seq<Byte>
    var at: nat

    constructor (blob: seq<Byte>)
      ensures this.blob == blob && at == 0
    {
      this.blob, at := blob, 0;
    }

    /** The next n bytes, or none when fewer are left. */
    method Full(n: nat) returns (b: Option<seq<Byte>>)
      requires at <= |blob|
      modifies this
      ensures at <= |blob|
      ensures b.Some? <==> old(at) + n <= |blob|
      ensures b.None? ==> at == |blob|
      ensures b.Some? ==> b.value == blob[old(at)..old(at) + n] && at == old(at) + n
    {
      if at + n > |blob| {
        at := |blob|;
        return None;
      }
      at := at + n;
      return Some(blob[at - n..at]);
    }

    /** Four numbers of sixteen bits, or none of them. */
    method Four() returns (ids: seq<nat>)
      requires at <= |blob|
      modifies this
      ensures at <= |blob|
      ensures ids == [] || |ids| == 4
      ensures |ids| == 4 <==> old(at) + 8 <= |blob|
      ensures |ids| == 4 ==> at == old(at) + 8 && forall i | 0 <= i < 4 :: ids[i] == Read16(blob[old(at) + 2 * i..])
    {
      ids := [];
      while |ids| < 4
        invariant |ids| <= 4 && at == old(at) + 2 * |ids| <= |blob|
        invariant forall i | 0 <= i < |ids| :: ids[i] == Read16(blob[old(at) + 2 * i..])
        decreases 4 - |ids|
      {
        var b := Full(2);
        if b.None? {
          return [];
        }
        ids := ids + [Read16(b.value)];
      }
    }
  }

  lemma ReadsFirstTwo(s: seq<Byte>)
    requires |s| >= 2
    ensures Read16(s) == Read16(s[..2])
  {
  }

  lemma MagicIsFour()
    ensures |MAGIC| == 4
  {
  }

  method ParseWenc(blob: seq<Byte>) returns (m: Result<Message, Fault>)
    ensures m == Parse(blob)
  {
    hide MAGIC, SUITE, Read16;
    MagicIsFour();
    var r := new Reader(blob);
    var magic := r.Full(4);
    if magic.None? || magic.value != MAGIC {
      return Err(BadMagic);
    }
    var version := r.Full(1);
    if version.None? || version.value[0] != VERSION {
      return Err(BadVersion);
    }
    var ids := r.Four();
    if ids == [] {
      return Err(TruncatedHeader);
    }
    SuiteReads(blob);
    if ids[0] != KEM_P256_HKDF_SHA256 || ids[1] != KDF_HKDF_SHA256 || ids[2] != AEAD_AES256GCM {
      return Err(BadSuite);
    }
    var recipient := r.Full(ids[3]);
    if recipient.None? {
      return Err(TruncatedRecipient);
    }
    var elen := r.Full(2);
    if elen.None? {
      return Err(TruncatedEncLength);
    }
    ReadsFirstTwo(blob[r.at - 2..]);
    assert blob[r.at - 2..][..2] == elen.value;
    var enc := r.Full(Read16(elen.value));
    if enc.None? {
      return Err(TruncatedEnc);
    }
    return Ok(Message(recipient.value, enc.value, blob[r.at..], blob[..r.at]));
  }

  lemma SuiteReads(blob: seq<Byte>)
    requires |blob| >= 11
    ensures blob[5..11] == SUITE <==>
      && Read16(blob[5..]) == KEM_P256_HKDF_SHA256 && Read16(blob[7..]) == KDF_HKDF_SHA256
      && Read16(blob[9..]) == AEAD_AES256GCM
  {
    assert SUITE == [0, 0x10, 0, 1, 0, 2];
    var six := blob[5..11];
    assert six == [blob[5], blob[6], blob[7], blob[8], blob[9], blob[10]];
    assert six == SUITE <==>
             blob[5] == 0 && blob[6] == 0x10 && blob[7] == 0 && blob[8] == 1 && blob[9] == 0 && blob[10] == 2;
  }

  // ----- parser and printer undo each other ---------------------------------------------------------

  predicate Fits(recipient: seq<Byte>, enc: seq<Byte>) {
    |recipient| < LIMIT && |enc| < LIMIT
  }

  lemma OpeningParts()
    ensures |MAGIC| == 4 && |SUITE| == 6 && OPENING == MAGIC + [VERSION] + SUITE
    ensures OPENING[..4] == MAGIC && OPENING[4] == VERSION && OPENING[5..] == SUITE
  {
  }

  /** What the reader finds in a printed header, whatever its lengths were cut to. */
  lemma HeaderReads(recipient: seq<Byte>, enc: seq<Byte>, ct: seq<Byte>)
    ensures var b := Marshal(recipient, enc) + ct;
            && b[..4] == MAGIC && b[4] == VERSION && b[5..11] == SUITE
            && Read16(b[11..]) == |recipient| % LIMIT
            && b[13..13 + |recipient|] == recipient
            && Read16(b[13 + |recipient|..]) == |enc| % LIMIT
            && b[15 + |recipient|..15 + |recipient| + |enc|] == enc
            && b[15 + |recipient| + |enc|..] == ct && b[..15 + |recipient| + |enc|] == Marshal(recipient, enc)
  {
    OpeningParts();
    hide SUITE, OPENING, MAGIC, Big16, Read16;
    var b := Marshal(recipient, enc) + ct;
    var rest := recipient + Big16(|enc|) + enc + ct;
    assert b[..11] == OPENING && b[5..11] == OPENING[5..];
    assert b == OPENING + Big16(|recipient|) + rest;
    ReadsBack(|recipient|);
    ReadsBack(|enc|);
    assert b[11..][..2] == Big16(|recipient|);
    ReadsFirstTwo(b[11..]);
    ReadsFirstTwo(b[13 + |recipient|..]);
    assert b[13..] == rest;
    assert b[13 + |recipient|..] == Big16(|enc|) + enc + ct;
    assert b[13 + |recipient|..][..2] == Big16(|enc|);
    assert b[15 + |recipient|..] == enc + ct;
  }

  /** Parsing what was printed gives the three parts back, with the header as printed, exactly when both
      lengths fit in sixteen bits. */
  lemma RoundTrip(recipient: seq<Byte>, enc: seq<Byte>, ct: seq<Byte>)
    ensures Parse(Marshal(recipient, enc) + ct) == Ok(Message(recipient, enc, ct, Marshal(recipient, enc)))
            <==> Fits(recipient, enc)
  {
    hide Marshal;
    HeaderReads(recipient, enc, ct);
  }

  /** A header cut short is refused for the part in which it ends. */
  lemma CutShort(recipient: seq<Byte>, enc: seq<Byte>, k: nat)
    requires Fits(recipient, enc) && k < |Marshal(recipient, enc)|
    ensures Parse(Marshal(recipient, enc)[..k]) == Err(
              if k < 4 then BadMagic else if k < 5 then BadVersion else if k < 13 then TruncatedHeader
              else if k < 13 + |recipient| then TruncatedRecipient else if k < 15 + |recipient| then TruncatedEncLength
              else TruncatedEnc)
  {
    hide Marshal, MAGIC, SUITE, Read16;
    var b, r := Marshal(recipient, enc), |recipient|;
    HeaderReads(recipient, enc, []);
    assert b + [] == b;
    var cut := b[..k];
    assert k >= 4 ==> cut[..4] == b[..4];
    assert k >= 5 ==> cut[4] == b[4];
    if k >= 13 {
      assert cut[5..11] == b[5..11];
      ReadsFirstTwo(cut[11..]);
      ReadsFirstTwo(b[11..]);
      assert cut[11..][..2] == b[11..][..2];
    }
    if k >= 15 + r {
      ReadsFirstTwo(cut[13 + r..]);
      ReadsFirstTwo(b[13 + r..]);
      assert cut[13 + r..][..2] == b[13 + r..][..2];
    }
  }

  /** With all its lengths there, a blob is refused for its magic, its version or its suite exactly when those bytes
      are not the opening's, in that order. */
  lemma WrongOpening(blob: seq<Byte>)
    requires |blob| >= 13
    ensures Parse(blob) == Err(BadMagic) <==> blob[..4] != [0x57, 0x45, 0x4E, 0x43]
    ensures Parse(blob) == Err(BadVersion) <==> blob[..4] == [0x57, 0x45, 0x4E, 0x43] && blob[4] != 1
    ensures Parse(blob) == Err(BadSuite) <==>
              blob[..5] == [0x57, 0x45, 0x4E, 0x43, 1] && blob[5..11] != [0, 0x10, 0, 1, 0, 2]
  {
    hide Read16, Big16;
    OpeningBytes();
    OpeningParts();
    assert OPENING[5..] == [0, 0x10, 0, 1, 0, 2];
    assert blob[..5] == blob[..4] + [blob[4]];
  }

  /** A recipient of 65536 bytes is printed with a length of none, and does not come back. */
  lemma LongRecipientIsLost(recipient: seq<Byte>)
    requires |recipient| == LIMIT
    ensures Big16(|recipient|) == [0, 0]
    ensures Parse(Marshal(recipient, []) + []) != Ok(Message(recipient, [], [], Marshal(recipient, [])))
  {
    hide Marshal, Parse;
    RoundTrip(recipient, [], []);
  }

  /** Whatever parses is its parts printed again, and the associated data is that very header. */
  lemma PrintsBack(blob: seq<Byte>)
    requires Parse(blob).Ok?
    ensures var m := Parse(blob).value;
            Fits(m.recipient, m.enc) && m.header == Marshal(m.recipient, m.enc) && blob == m.header + m.ct
  {
    hide SUITE, OPENING, MAGIC, Big16, Read16;
    var m := Parse(blob).value;
    var r, e := Read16(blob[11..]), Read16(blob[13 + Read16(blob[11..])..]);
    OpeningParts();
    WritesBack(blob[11..13]);
    WritesBack(blob[13 + r..15 + r]);
    ReadsFirstTwo(blob[11..]);
    ReadsFirstTwo(blob[13 + r..]);
    assert blob[11..][..2] == blob[11..13] && blob[13 + r..][..2] == blob[13 + r..15 + r];
    assert blob[..11] == blob[..4] + [blob[4]] + blob[5..11] == OPENING;
    assert m.header == blob[..11] + blob[11..13] + blob[13..13 + r] + blob[13 + r..15 + r] + blob[15 + r..15 + r + e];
  }

  /** No header begins another one. */
  lemma PrefixFree(recipient: seq<Byte>, enc: seq<Byte>, recipient': seq<Byte>, enc': seq<Byte>)
    requires Fits(recipient, enc) && Fits(recipient', enc')
    requires Marshal(recipient, enc) <= Marshal(recipient', enc')
    ensures recipient == recipient' && enc == enc'
  {
    var long := Marshal(recipient', enc');
    var rest := long[|Marshal(recipient, enc)|..];
    assert long == Marshal(recipient, enc) + rest && long == long + [];
    RoundTrip(recipient, enc, rest);
    RoundTrip(recipient', enc', []);
  }

  /** Sealing under a recipient's name and an associated text, and opening. */
  datatype Suite = Suite(seal: (seq<Byte>, seq<Byte>, seq<Byte>, seq<Byte>) -> seq<Byte>,
                         open: (seq<Byte>, seq<Byte>, seq<Byte>, seq<Byte>) -> Option<seq<Byte>>)
  {
    /** Opening undoes sealing under the same name, encapsulation and text, and gives nothing under others. */
    ghost predicate Valid() {
      forall name: seq<Byte>, enc: seq<Byte>, aad: seq<Byte>, plain: seq<Byte>,
             name': seq<Byte>, enc': seq<Byte>, aad': seq<Byte> ::
        open(name', enc', aad', seal(name, enc, aad, plain))
        == if name' == name && enc' == enc && aad' == aad then Some(plain) else None
    }
  }

  function Encrypt(s: Suite, recipient: seq<Byte>, enc: seq<Byte>, plain: seq<Byte>): seq<Byte> {
    var header := Marshal(recipient, enc);
    header + s.seal(recipient, enc, header, plain)
  }

  function Decrypt(s: Suite, blob: seq<Byte>): Option<seq<Byte>> {
    match Parse(blob)
    case Ok(m) => s.open(m.recipient, m.enc, m.header, m.ct)
    case Err(_) => None
  }

  /** What is encrypted decrypts when both lengths fit. */
  lemma DecryptsItsOwn(s: Suite, recipient: seq<Byte>, enc: seq<Byte>, plain: seq<Byte>)
    requires s.Valid() && Fits(recipient, enc)
    ensures Decrypt(s, Encrypt(s, recipient, enc, plain)) == Some(plain)
  {
    RoundTrip(recipient, enc, s.seal(recipient, enc, Marshal(recipient, enc), plain));
  }

  /** A sealed text put under any other header never opens. */
  lemma HeaderIsBound(s: Suite, recipient: seq<Byte>, enc: seq<Byte>, plain: seq<Byte>,
                      recipient': seq<Byte>, enc': seq<Byte>)
    requires s.Valid() && Fits(recipient, enc) && Fits(recipient', enc') && (recipient' != recipient || enc' != enc)
    ensures Decrypt(s, Marshal(recipient', enc') + s.seal(recipient, enc, Marshal(recipient, enc), plain)) == None
  {
    RoundTrip(recipient', enc', s.seal(recipient, enc, Marshal(recipient, enc), plain));
  }

  // ----- the point in an OpenPGP key packet ------------------------------------------------------------

  datatype PacketFault = NotAKeyPacket | BadLengthForm | LengthMismatch | NotEcdsa | TruncatedBeforePoint | NotAPoint

  /** The packet's header and the number of bytes it claims; partial and five-octet lengths are refused. */
  function PacketLength(rdata: seq<Byte>): Result<(nat, nat), PacketFault>
    requires |rdata| >= 3
  {
    if rdata[1] < 192 then Ok((2, rdata[1]))
    else if rdata[1] < 224 then Ok((3, (rdata[1] as int - 192) * 256 + rdata[2] + 192))
    else Err(BadLengthForm)
  }

  function P256Point(rdata: seq<Byte>): Result<seq<Byte>, PacketFault> {
    if |rdata| < 3 || rdata[0] != 0xC6 then Err(NotAKeyPacket)
    else
      match PacketLength(rdata)
      case Err(why) => Err(why)
      case Ok((off, declared)) =>
        var body := rdata[off..];
        if declared != |body| then Err(LengthMismatch)
        else if |body| < 7 || body[0] != 4 || body[5] != 19 then Err(NotEcdsa)
        else
          var start := 7 + body[6] as int;
          if |body| < start + 2 then Err(TruncatedBeforePoint)
          else
            var bits: nat, point := Read16(body[start..]), body[start + 2..];
            if (bits + 7) / 8 != |point| || |point| != 65 || point[0] != 4 then Err(NotAPoint) else Ok(point)
  }

  /** A key packet printed: version 4, creation time, ECDSA, the curve's name, the point's bits, the point. */
  function Body(creation: seq<Byte>, oid: seq<Byte>, bits: nat, point: seq<Byte>): seq<Byte>
    requires |creation| == 4 && |oid| < 256 && bits < LIMIT
  {
    [4] + creation + [19, |oid|] + oid + Big16(bits) + point
  }

  function Packet(body: seq<Byte>): seq<Byte>
    requires |body| < 8384
  {
    (if |body| < 192 then [0xC6, |body|] else [0xC6, (|body| - 192) / 256 + 192, (|body| - 192) % 256]) + body
  }

  predicate IsPoint(point: seq<Byte>, bits: nat) {
    |point| == 65 && point[0] == 4 && 513 <= bits <= 520
  }

  /** The length a packet is printed with is the one read back, and no other packet has that body. */
  lemma PacketReads(rdata: seq<Byte>)
    requires |rdata| >= 3 && rdata[0] == 0xC6
    ensures var l := PacketLength(rdata);
            l.Ok? && l.value.1 == |rdata| - l.value.0 ==>
              |rdata[l.value.0..]| < 8384 && rdata == Packet(rdata[l.value.0..])
  {
    var l := PacketLength(rdata);
    if l.Ok? && l.value.1 == |rdata| - l.value.0 {
      assert rdata == rdata[..l.value.0] + rdata[l.value.0..];
      assert rdata[..l.value.0] == if l.value.0 == 2 then [rdata[0], rdata[1]] else [rdata[0], rdata[1], rdata[2]];
    }
  }

  /** A packet that prints this point, under some time, curve name and bit count. */
  ghost predicate Prints(rdata: seq<Byte>, point: seq<Byte>) {
    exists creation: seq<Byte>, oid: seq<Byte>, bits: nat ::
      && |creation| == 4 && |oid| < 256 && bits < LIMIT && IsPoint(point, bits)
      && rdata == Packet(Body(creation, oid, bits, point))
  }

  lemma BodyParts(body: seq<Byte>)
    requires |body| >= 7 && body[0] == 4 && body[5] == 19 && |body| >= 9 + body[6] as int
    ensures var start := 7 + body[6] as int;
            body == Body(body[1..5], body[7..start], Read16(body[start..]), body[start + 2..])
  {
    var start := 7 + body[6] as int;
    WritesBack(body[start..][..2]);
    assert body[start..][..2] == body[start..start + 2];
    assert body == [body[0]] + body[1..5] + [body[5], body[6]]
                   + body[7..start] + body[start..start + 2] + body[start + 2..];
  }

  lemma AcceptedPrints(rdata: seq<Byte>, point: seq<Byte>)
    requires P256Point(rdata) == Ok(point)
    ensures Prints(rdata, point)
  {
    hide Packet, Body;
    PacketReads(rdata);
    var body := rdata[PacketLength(rdata).value.0..];
    BodyParts(body);
    assert IsPoint(point, Read16(body[7 + body[6] as int..]));
  }

  /** A point comes out exactly of a printed packet that holds it, with as many bits as 65 octets take. */
  lemma PointExactly(rdata: seq<Byte>, point: seq<Byte>)
    ensures P256Point(rdata) == Ok(point) <==> Prints(rdata, point)
  {
    if P256Point(rdata) == Ok(point) {
      AcceptedPrints(rdata, point);
    } else if Prints(rdata, point) {
      var creation: seq<Byte>, oid: seq<Byte>, bits: nat :|
        && |creation| == 4 && |oid| < 256 && bits < LIMIT && IsPoint(point, bits)
        && rdata == Packet(Body(creation, oid, bits, point));
      PrintedPointReads(creation, oid, bits, point);
    }
  }

  lemma PrintedPointReads(creation: seq<Byte>, oid: seq<Byte>, bits: nat, point: seq<Byte>)
    requires |creation| == 4 && |oid| < 256 && bits < LIMIT && IsPoint(point, bits)
    ensures P256Point(Packet(Body(creation, oid, bits, point))) == Ok(point)
  {
    var body := Body(creation, oid, bits, point);
    var rdata := Packet(body);
    var off := if |body| < 192 then 2 else 3;
    assert rdata[off..] == body;
    ReadsBack(bits);
    assert body[7 + |oid|..][..2] == Big16(bits);
    assert body[9 + |oid|..] == point;
  }
}
