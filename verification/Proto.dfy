// The discovery packets on the wire: how one is printed, signed and parsed.

module Proto {
  import opened Types
  import opened Combinators
  import opened Signing

  datatype LocalCache = AtUrl(url: Url) | AtPort(port: Port)

  datatype Packet = Adv(cache: LocalCache) | Goodbye | Req

  datatype SignedContent = SignedAdv(cache: LocalCache) | SignedGoodbye

  datatype UntrustedContent = UntrustedReq

  // The body codec is a parameter; MessagePack is one that meets Faithful.
  datatype Codec = Codec(
    packSigned: SignedContent -> seq<byte>,
    unpackSigned: seq<byte> -> Option<SignedContent>,
    packUntrusted: UntrustedContent -> seq<byte>,
    unpackUntrusted: seq<byte> -> Option<UntrustedContent>)

  ghost predicate Faithful(codec: Codec) {
    && (forall c :: codec.unpackSigned(codec.packSigned(c)) == Some(c))
    && (forall c :: codec.unpackUntrusted(codec.packUntrusted(c)) == Some(c))
  }

  const MAGIC: seq<byte> := [99, 97, 115, 104, 101, 119, 110, 105, 120]  // "cashewnix"
  const UDP_MAX_DATAGRAM_SIZE := 65507
  const PACKET_MAXIMUM_REASONABLE_SIZE := 1024
  const MAX_PACKAGE_TIME_DIFF := 5
  const SIGNED: byte := 0xff
  const UNSIGNED: byte := 0x00

  datatype ParseError = InvalidHeader | VerificationError | TimestampDiff | ParseBody

  datatype SerializeError = PackageTooBig(size: nat) | MissingKey

  datatype RawPacket = RawPacket(signature: Option<seq<byte>>, content: seq<byte>)

  function ParseRaw(scheme: Scheme, buf: seq<byte>): Option<RawPacket> {
    match Tag(buf, MAGIC)
    case None => None
    case Some((afterMagic, _)) =>
      match U8(afterMagic)
      case None => None
      case Some((afterFlag, flag)) =>
        if flag == SIGNED then
          match Take(afterFlag, SIGNATURE_SIZE)
          case None => None
          case Some((content, signature)) =>
            if scheme.wellFormed(signature) then Some(RawPacket(Some(signature), content)) else None
        else Some(RawPacket(None, afterFlag))
  }

  // The distance of two clocks, without going below zero.
  function TimeDiff(now: u64, timestamp: u64): u64 {
    if now < timestamp then timestamp - now else now - timestamp
  }

  function Parse(scheme: Scheme, codec: Codec, keys: Keys, buf: seq<byte>, now: u64): Result<Packet, ParseError> {
    match ParseRaw(scheme, buf)
    case None => Err(InvalidHeader)
    case Some(RawPacket(Some(sig), content)) =>
      if !Verifies(scheme, keys, sig, content) then Err(VerificationError)
      else (
        match U64Le(content)
        case None => Err(InvalidHeader)
        case Some((msg, timestamp)) =>
          if TimeDiff(now, timestamp) > MAX_PACKAGE_TIME_DIFF then Err(TimestampDiff)
          else (
            match codec.unpackSigned(msg)
            case None => Err(ParseBody)
            case Some(SignedAdv(cache)) => Ok(Adv(cache))
            case Some(SignedGoodbye) => Ok(Goodbye)))
    case Some(RawPacket(None, content)) =>
      match codec.unpackUntrusted(content)
      case None => Err(ParseBody)
      case Some(UntrustedReq) => Ok(Req)
  }

  datatype PacketKind = Signed(signed: SignedContent) | Untrusted(untrusted: UntrustedContent)

  function KindOf(packet: Packet): PacketKind {
    match packet
    case Adv(cache) => Signed(SignedAdv(cache))
    case Goodbye => Signed(SignedGoodbye)
    case Req => Untrusted(UntrustedReq)
  }

  // The bytes of a packet: magic, flag, then for a signed one the signature of
  // the body, and the body.
  function Frame(scheme: Scheme, codec: Codec, key: PrivateKey, packet: Packet, timestamp: u64): seq<byte> {
    match KindOf(packet)
    case Signed(content) =>
      var body := ToLeBytes(timestamp) + codec.packSigned(content);
      MAGIC + [SIGNED] + scheme.sign(key, body) + body
    case Untrusted(content) => MAGIC + [UNSIGNED] + codec.packUntrusted(content)
  }

  method ToBytes(codec: Codec, keystore: KeyStore, packet: Packet, timestamp: u64)
    returns (r: Result<seq<byte>, SerializeError>)
    ensures KindOf(packet).Signed? && keystore.private.None? ==> r == Err(MissingKey)
    ensures KindOf(packet).Untrusted? || keystore.private.Some? ==>
              var frame := Frame(keystore.scheme, codec, keystore.private.GetOr([]), packet, timestamp);
              r == if |frame| > 65507 then Err(PackageTooBig(|frame|)) else Ok(frame)
  {
    var kind := KindOf(packet);
    var ret: seq<byte> := [];
    ret := ret + MAGIC;
    var buf: seq<byte>;
    match kind {
      case Signed(content) =>
        ret := ret + [SIGNED];
        var body: seq<byte> := [];
        body := body + ToLeBytes(timestamp);
        body := body + codec.packSigned(content);
        assert body == ToLeBytes(timestamp) + codec.packSigned(content);
        var signature := keystore.Sign(body);
        if signature.None? {
          return Err(MissingKey);
        }
        ret := ret + signature.value;
        buf := body;
        assert ret + buf == Frame(keystore.scheme, codec, keystore.private.GetOr([]), packet, timestamp);
      case Untrusted(content) =>
        ret := ret + [UNSIGNED];
        buf := codec.packUntrusted(content);
        assert ret + buf == Frame(keystore.scheme, codec, keystore.private.GetOr([]), packet, timestamp);
    }
    ret := ret + buf;
    var size := |ret|;
    if size > UDP_MAX_DATAGRAM_SIZE {
      return Err(PackageTooBig(size));
    }
    return Ok(ret);
  }

  // What the receiver's buffer keeps of a datagram.
  function Received(datagram: seq<byte>): seq<byte> {
    if |datagram| <= PACKET_MAXIMUM_REASONABLE_SIZE then datagram else datagram[..PACKET_MAXIMUM_REASONABLE_SIZE]
  }

  // A signed frame comes apart into the pieces it was made of.
  lemma FrameParts(buf: seq<byte>, sig: seq<byte>, body: seq<byte>, scheme: Scheme)
    requires |sig| == SIGNATURE_SIZE && scheme.wellFormed(sig)
    requires buf == MAGIC + [SIGNED] + sig + body
    ensures ParseRaw(scheme, buf) == Some(RawPacket(Some(sig), body))
  {
    assert buf[..|MAGIC|] == MAGIC;
    assert buf[|MAGIC|..] == [SIGNED] + sig + body;
    assert ([SIGNED] + sig + body)[1..] == sig + body;
    assert (sig + body)[..SIGNATURE_SIZE] == sig;
    assert (sig + body)[SIGNATURE_SIZE..] == body;
  }

  // A peer that has our public key reads back what we sent, when the datagram
  // fits its buffer, exactly when the packet is unsigned or the clocks are at
  // most five seconds apart.
  lemma WireRoundTrip(scheme: Scheme, codec: Codec, sender: PrivateKey, keys: Keys, packet: Packet, timestamp: u64,
                      now: u64)
    requires Sound(scheme) && Faithful(codec)
    requires scheme.publicOf(sender) in keys.public
    requires |Frame(scheme, codec, sender, packet, timestamp)| <= 1024
    ensures var r := Parse(scheme, codec, keys, Received(Frame(scheme, codec, sender, packet, timestamp)), now);
            && (r == Ok(packet) <==> packet.Req? || (now as int - timestamp <= 5 && timestamp as int - now <= 5))
            && (r.Err? ==> r.error == TimestampDiff)
  {
    var buf := Frame(scheme, codec, sender, packet, timestamp);
    match KindOf(packet)
    case Signed(content) =>
      var msg := codec.packSigned(content);
      var body := ToLeBytes(timestamp) + msg;
      var sig := scheme.sign(sender, body);
      FrameParts(buf, sig, body, scheme);
      U64LeRoundTrip(timestamp, msg);
      assert scheme.verify(scheme.publicOf(sender), body, sig);
    case Untrusted(content) =>
  }

  // The two ways in which bytes can be framed.

  ghost predicate SignedFrame(scheme: Scheme, buf: seq<byte>, sig: seq<byte>, body: seq<byte>) {
    && |sig| == 64 && scheme.wellFormed(sig)
    && buf == [99, 97, 115, 104, 101, 119, 110, 105, 120] + [0xff] + sig + body
  }

  ghost predicate Unsigned(buf: seq<byte>, flag: byte, body: seq<byte>) {
    flag != 0xff && buf == [99, 97, 115, 104, 101, 119, 110, 105, 120] + [flag] + body
  }

  // What is sent is framed in one of the two ways, with flag 0 when unsigned.
  lemma FrameIsFramed(scheme: Scheme, codec: Codec, key: PrivateKey, packet: Packet, timestamp: u64)
    requires Sound(scheme)
    ensures var frame := Frame(scheme, codec, key, packet, timestamp);
            match packet
            case Adv(cache) => SignedAs(scheme, codec, key, frame, timestamp, SignedAdv(cache))
            case Goodbye => SignedAs(scheme, codec, key, frame, timestamp, SignedGoodbye)
            case Req => Unsigned(frame, 0, codec.packUntrusted(UntrustedReq))
  {
  }

  ghost predicate SignedAs(scheme: Scheme, codec: Codec, key: PrivateKey, frame: seq<byte>, timestamp: u64,
                           content: SignedContent) {
    var body := ToLeBytes(timestamp) + codec.packSigned(content);
    SignedFrame(scheme, frame, scheme.sign(key, body), body)
  }

  // The receiver sees the first 1024 bytes.
  lemma ReceivedIsPrefix(datagram: seq<byte>)
    ensures Received(datagram) <= datagram
    ensures |datagram| <= 1024 ==> Received(datagram) == datagram
    ensures |datagram| > 1024 ==> |Received(datagram)| == 1024
  {
  }

  lemma RawIffFramed(scheme: Scheme, buf: seq<byte>)
    ensures forall sig, body :: ParseRaw(scheme, buf) == Some(RawPacket(Some(sig), body)) <==>
              SignedFrame(scheme, buf, sig, body)
    ensures forall body :: ParseRaw(scheme, buf) == Some(RawPacket(None, body)) <==>
              exists flag :: Unsigned(buf, flag, body)
  {
    forall sig, body | SignedFrame(scheme, buf, sig, body)
      ensures ParseRaw(scheme, buf) == Some(RawPacket(Some(sig), body))
    {
      FrameParts(buf, sig, body, scheme);
    }
    forall flag, body | Unsigned(buf, flag, body)
      ensures ParseRaw(scheme, buf) == Some(RawPacket(None, body))
    {
    }
    var raw := ParseRaw(scheme, buf);
    if raw.Some? {
      var afterMagic := buf[|MAGIC|..];
      var flag := afterMagic[0];
      assert buf == MAGIC + afterMagic;
      assert afterMagic == [flag] + afterMagic[1..];
      match raw.value.signature
      case Some(sig) =>
        assert afterMagic[1..] == sig + raw.value.content;
        assert SignedFrame(scheme, buf, sig, raw.value.content);
      case None =>
        assert Unsigned(buf, flag, raw.value.content);
    }
  }

  // The bytes carry a body signed under a known key, stamped at most five
  // seconds from now.
  ghost predicate SignedBy(scheme: Scheme, keys: Keys, buf: seq<byte>, now: u64, sig: seq<byte>, timestamp: u64,
                           msg: seq<byte>) {
    && SignedFrame(scheme, buf, sig, ToLeBytes(timestamp) + msg)
    && (exists key | key in keys.public :: scheme.verify(key, ToLeBytes(timestamp) + msg, sig))
    && now as int - timestamp <= 5 && timestamp as int - now <= 5
  }

  ghost predicate Authentic(scheme: Scheme, codec: Codec, keys: Keys, buf: seq<byte>, now: u64,
                            content: SignedContent) {
    exists sig: seq<byte>, timestamp: u64, msg: seq<byte> ::
      SignedBy(scheme, keys, buf, now, sig, timestamp, msg) && codec.unpackSigned(msg) == Some(content)
  }

  ghost predicate PlainRequest(codec: Codec, buf: seq<byte>) {
    exists flag: byte, body: seq<byte> :: Unsigned(buf, flag, body) && codec.unpackUntrusted(body) == Some(UntrustedReq)
  }

  function PacketOf(content: SignedContent): Packet {
    match content
    case SignedAdv(cache) => Adv(cache)
    case SignedGoodbye => Goodbye
  }

  // An advert or a goodbye is accepted exactly when it is authentic; only a
  // request can come unsigned.
  lemma AcceptedIffAuthentic(scheme: Scheme, codec: Codec, keys: Keys, buf: seq<byte>, now: u64)
    ensures forall content :: Parse(scheme, codec, keys, buf, now) == Ok(PacketOf(content)) <==>
                              Authentic(scheme, codec, keys, buf, now, content)
    ensures Parse(scheme, codec, keys, buf, now) == Ok(Req) <==> PlainRequest(codec, buf)
  {
    if Parse(scheme, codec, keys, buf, now).Ok? {
      AcceptedIsWellFramed(scheme, codec, keys, buf, now);
    }
    forall content
      ensures Parse(scheme, codec, keys, buf, now) == Ok(PacketOf(content)) <==>
              Authentic(scheme, codec, keys, buf, now, content)
    {
      if sig: seq<byte>, timestamp: u64, msg: seq<byte> :|
           SignedBy(scheme, keys, buf, now, sig, timestamp, msg) && codec.unpackSigned(msg) == Some(content) {
        SignedIsAccepted(scheme, codec, keys, buf, now, sig, timestamp, msg);
      }
    }
  }

  lemma SignedIsAccepted(scheme: Scheme, codec: Codec, keys: Keys, buf: seq<byte>, now: u64, sig: seq<byte>,
                         timestamp: u64, msg: seq<byte>)
    requires SignedBy(scheme, keys, buf, now, sig, timestamp, msg)
    ensures Parse(scheme, codec, keys, buf, now) ==
            match codec.unpackSigned(msg)
            case None => Err(ParseBody)
            case Some(content) => Ok(PacketOf(content))
  {
    var body := ToLeBytes(timestamp) + msg;
    FrameParts(buf, sig, body, scheme);
    assert Verifies(scheme, keys, sig, body);
    U64LeRoundTrip(timestamp, msg);
  }

  lemma AcceptedIsWellFramed(scheme: Scheme, codec: Codec, keys: Keys, buf: seq<byte>, now: u64)
    requires Parse(scheme, codec, keys, buf, now).Ok?
    ensures var packet := Parse(scheme, codec, keys, buf, now).value;
            if packet.Req? then PlainRequest(codec, buf)
            else exists content :: packet == PacketOf(content) && Authentic(scheme, codec, keys, buf, now, content)
  {
    RawIffFramed(scheme, buf);
    var raw := ParseRaw(scheme, buf).value;
    match raw.signature
    case Some(sig) =>
      U64LeDeterminesBytes(raw.content);
      var (msg, timestamp) := U64Le(raw.content).value;
      assert SignedBy(scheme, keys, buf, now, sig, timestamp, msg);
      var content := codec.unpackSigned(msg).value;
      assert Authentic(scheme, codec, keys, buf, now, content);
    case None =>
      var flag :| Unsigned(buf, flag, raw.content);
      assert codec.unpackUntrusted(raw.content).value.UntrustedReq?;
  }

  // Why a packet is refused: badly framed or too short, signed by nobody known,
  // or stamped too far from now; otherwise only its body can be at fault.
  lemma RefusedBecause(scheme: Scheme, codec: Codec, keys: Keys, buf: seq<byte>, now: u64)
    ensures Parse(scheme, codec, keys, buf, now) == Err(InvalidHeader) <==>
            || !((exists sig, body :: SignedFrame(scheme, buf, sig, body)) ||
                 (exists flag, body :: Unsigned(buf, flag, body)))
            || exists sig, body ::
                 SignedFrame(scheme, buf, sig, body) && Verifies(scheme, keys, sig, body) && |body| < 8
    ensures Parse(scheme, codec, keys, buf, now) == Err(VerificationError) <==>
            exists sig, body :: SignedFrame(scheme, buf, sig, body) && !Verifies(scheme, keys, sig, body)
    ensures Parse(scheme, codec, keys, buf, now) == Err(TimestampDiff) <==>
            exists sig, body :: SignedFrame(scheme, buf, sig, body) && Verifies(scheme, keys, sig, body) && |body| >= 8
              && !(-5 <= now as int - LeValue(body[..8]) <= 5)
  {
    RawIffFramed(scheme, buf);
    var raw := ParseRaw(scheme, buf);
    if raw.Some? {
      match raw.value.signature
      case Some(sig) =>
        assert SignedFrame(scheme, buf, sig, raw.value.content);
      case None =>
        assert exists flag :: Unsigned(buf, flag, raw.value.content);
    }
  }
}
