/** The MQTT framing of ham/mqtt.py: Remaining Length, frames out of a byte
    stream that respects no boundaries, PUBLISH and CONNECT bodies. */
module Mqtt {
  import opened Options
  import opened Bits

  type Bytes = seq<Byte>

  /** A control packet: its first byte and what follows the length. */
  datatype Frame = Frame(ptype: Byte, payload: Bytes)

  // ---- Remaining Length (MQTT 3.1.1 section 2.2.3) --------------------------------

  function VarintOf(n: nat): (b: Bytes)
    ensures |b| > 0
  {
    if n < 128 then [n] else [n % 128 + 128] + VarintOf(n / 128)
  }

  /** Seven bits a byte, lowest first; the top bit says another follows. The
      result is the length and the index after it. */
  function ReadLength(buf: Bytes, i: nat): Option<(nat, nat)>
    decreases |buf| - i
  {
    if i >= |buf| then None
    else if buf[i] < 128 then Some((buf[i], i + 1))
    else
      match ReadLength(buf, i + 1)
      case None => None
      case Some((rest, next)) => Some((buf[i] - 128 + 128 * rest, next))
  }

  method Varint(n: nat) returns (out: Bytes)
    ensures out == VarintOf(n)
  {
    out := [];
    var left := n;
    while true
      invariant out + VarintOf(left) == VarintOf(n)
      decreases left
    {
      var byte := left % 128;
      var more := left / 128;
      out := out + [byte + if more != 0 then 128 else 0];
      if more == 0 {
        assert VarintOf(left) == [byte];
        return;
      }
      left := more;
    }
  }

  /** Every length survives, wherever it stands. */
  lemma {:induction false} LengthRoundTrip(before: Bytes, n: nat, after: Bytes)
    ensures ReadLength(before + VarintOf(n) + after, |before|) == Some((n, |before| + |VarintOf(n)|))
    decreases n
  {
    var buf := before + VarintOf(n) + after;
    if n >= 128 {
      var b := n % 128 + 128;
      assert buf == (before + [b]) + VarintOf(n / 128) + after;
      LengthRoundTrip(before + [b], n / 128, after);
    }
  }

  lemma {:induction false} ReadLengthBounds(buf: Bytes, i: nat)
    ensures ReadLength(buf, i).Some? ==> i < ReadLength(buf, i).value.1 <= |buf|
    decreases |buf| - i
  {
    if i < |buf| && buf[i] >= 128 {
      ReadLengthBounds(buf, i + 1);
    }
  }

  /** More bytes behind a length change nothing. */
  lemma {:induction false} ReadLengthStable(buf: Bytes, more: Bytes, i: nat)
    requires ReadLength(buf, i).Some?
    ensures ReadLength(buf + more, i) == ReadLength(buf, i)
    decreases |buf| - i
  {
    if buf[i] >= 128 {
      ReadLengthStable(buf, more, i + 1);
    }
  }

  // ---- one frame ------------------------------------------------------------------

  /** The first frame in a buffer and what is left of the buffer after it. */
  function ParseOne(buf: Bytes): Option<(Frame, Bytes)> {
    if |buf| < 2 then None
    else
      match ReadLength(buf, 1)
      case None => None
      case Some((length, i)) =>
        if i + length > |buf| then None
        else Some((Frame(buf[0], buf[i..i + length]), buf[i + length..]))
  }

  function Encode(f: Frame): Bytes {
    [f.ptype] + VarintOf(|f.payload|) + f.payload
  }

  lemma ParseEncode(f: Frame, rest: Bytes)
    ensures ParseOne(Encode(f) + rest) == Some((f, rest))
  {
    var head := [f.ptype] + VarintOf(|f.payload|);
    LengthRoundTrip([f.ptype], |f.payload|, f.payload + rest);
    assert Encode(f) + rest == head + (f.payload + rest);
    assert (head + (f.payload + rest))[|head|..] == f.payload + rest;
  }

  lemma ParseShrinks(buf: Bytes)
    requires ParseOne(buf).Some?
    ensures |ParseOne(buf).value.1| < |buf|
  {
    ReadLengthBounds(buf, 1);
  }

  lemma ParseStable(buf: Bytes, more: Bytes)
    requires ParseOne(buf).Some?
    ensures var (f, rest) := ParseOne(buf).value; ParseOne(buf + more) == Some((f, rest + more))
  {
    ReadLengthBounds(buf, 1);
    ReadLengthStable(buf, more, 1);
    var (length, i) := ReadLength(buf, 1).value;
    assert (buf + more)[i..i + length] == buf[i..i + length];
    assert (buf + more)[i + length..] == buf[i + length..] + more;
  }

  lemma ParsedPart(f: Frame, part: Bytes, missing: Bytes)
    requires part + missing == Encode(f) && ParseOne(part).Some?
    ensures missing == []
  {
    ParseStable(part, missing);
    assert part + missing == Encode(f) + [];
    ParseEncode(f, []);
    assert ParseOne(part).value.1 + missing == [];
  }

  /** Part of a frame is not a frame. */
  lemma ParseUnfinished(f: Frame, n: nat)
    requires n < |Encode(f)|
    ensures ParseOne(Encode(f)[..n]).None?
  {
    var part, missing := Encode(f)[..n], Encode(f)[n..];
    assert part + missing == Encode(f);
    if ParseOne(part).Some? {
      ParsedPart(f, part, missing);
    }
  }

  // ---- a stream of frames -----------------------------------------------------------

  /** All complete frames of a buffer, in order, and the unfinished tail. */
  function Drain(buf: Bytes): (seq<Frame>, Bytes)
    decreases |buf|
  {
    match ParseOne(buf)
    case None => ([], buf)
    case Some((f, rest)) =>
      ParseShrinks(buf);
      var (more, tail) := Drain(rest);
      ([f] + more, tail)
  }

  function EncodeAll(frames: seq<Frame>): Bytes {
    if frames == [] then [] else Encode(frames[0]) + EncodeAll(frames[1..])
  }

  /** Frames come out as they went in, and a tail that is no frame stays. */
  lemma {:induction false} DrainEncoded(frames: seq<Frame>, tail: Bytes)
    requires ParseOne(tail).None?
    ensures Drain(EncodeAll(frames) + tail) == (frames, tail)
  {
    if frames == [] {
      assert [] + tail == tail;
    } else {
      var later := EncodeAll(frames[1..]) + tail;
      assert EncodeAll(frames) + tail == Encode(frames[0]) + later;
      ParseEncode(frames[0], later);
      DrainEncoded(frames[1..], tail);
      assert Drain(Encode(frames[0]) + later) == ([frames[0]] + frames[1..], tail);
      assert [frames[0]] + frames[1..] == frames;
    }
  }

  /** Parsing early or late makes no difference. */
  lemma {:induction false} DrainSplit(a: Bytes, b: Bytes)
    ensures var (early, rest) := Drain(a);
      var (late, tail) := Drain(rest + b);
      Drain(a + b) == (early + late, tail)
    decreases |a|
  {
    match ParseOne(a)
    case None =>
      assert [] + Drain(a + b).0 == Drain(a + b).0;
    case Some((f, rest)) =>
      ParseShrinks(a);
      ParseStable(a, b);
      DrainSplit(rest, b);
      var (early, left) := Drain(rest);
      var (late, tail) := Drain(left + b);
      assert ([f] + early) + late == [f] + (early + late);
  }

  function Join(chunks: seq<Bytes>): Bytes {
    if chunks == [] then [] else Join(chunks[..|chunks| - 1]) + chunks[|chunks| - 1]
  }

  /** The reader's life: each chunk is appended to the buffer and everything
      complete is taken out. */
  function Feed(buf: Bytes, chunks: seq<Bytes>): (seq<Frame>, Bytes) {
    if chunks == [] then Drain(buf)
    else
      var (early, rest) := Feed(buf, chunks[..|chunks| - 1]);
      var (late, tail) := Drain(rest + chunks[|chunks| - 1]);
      (early + late, tail)
  }

  lemma FeedLast(buf: Bytes, chunks: seq<Bytes>, seen: Bytes)
    requires chunks != [] && Feed(buf, chunks[..|chunks| - 1]) == Drain(seen)
    ensures Feed(buf, chunks) == Drain(seen + chunks[|chunks| - 1])
  {
    DrainSplit(seen, chunks[|chunks| - 1]);
  }

  lemma ConcatAssoc(a: Bytes, b: Bytes, c: Bytes)
    ensures a + (b + c) == (a + b) + c
  {
  }

  lemma JoinLast(buf: Bytes, chunks: seq<Bytes>)
    requires chunks != []
    ensures buf + Join(chunks) == (buf + Join(chunks[..|chunks| - 1])) + chunks[|chunks| - 1]
  {
    ConcatAssoc(buf, Join(chunks[..|chunks| - 1]), chunks[|chunks| - 1]);
  }

  lemma FeedNothing(buf: Bytes)
    ensures Feed(buf, []) == Drain(buf + Join([]))
  {
    assert buf + [] == buf;
  }

  /** However the bytes are cut into chunks, the frames are those of the whole. */
  lemma {:induction false} FeedIsDrain(buf: Bytes, chunks: seq<Bytes>)
    ensures Feed(buf, chunks) == Drain(buf + Join(chunks))
  {
    if chunks == [] {
      FeedNothing(buf);
    } else {
      var front := chunks[..|chunks| - 1];
      FeedIsDrain(buf, front);
      FeedLast(buf, chunks, buf + Join(front));
      JoinLast(buf, chunks);
    }
  }

  /** For every list of frames, every unfinished next frame and every way of
      cutting their bytes: exactly those frames, in order, and the unfinished
      bytes untouched in the buffer. */
  lemma AnyChunking(frames: seq<Frame>, next: Frame, n: nat, chunks: seq<Bytes>)
    requires n < |Encode(next)|
    requires Join(chunks) == EncodeAll(frames) + Encode(next)[..n]
    ensures Feed([], chunks) == (frames, Encode(next)[..n])
  {
    FeedIsDrain([], chunks);
    assert [] + Join(chunks) == Join(chunks);
    ParseUnfinished(next, n);
    DrainEncoded(frames, Encode(next)[..n]);
  }

  // ---- bodies ---------------------------------------------------------------------

  /** A string and its two-byte length; longer ones have none. */
  function String(s: Bytes): Bytes
    requires |s| < 65536
  {
    [|s| / 256, |s| % 256] + s
  }

  function Clip(b: Bytes, i: nat, j: nat): Bytes
    requires i <= j
  {
    b[if i < |b| then i else |b|..if j < |b| then j else |b|]
  }

  function BigEndian(b: Bytes): nat {
    if |b| == 0 then 0 else 256 * BigEndian(b[..|b| - 1]) + b[|b| - 1]
  }

  /** Topic and message of a QoS 0 PUBLISH; slices past the end are empty. */
  function ParsePublish(payload: Bytes): (Bytes, Bytes) {
    var length := BigEndian(Clip(payload, 0, 2));
    (Clip(payload, 2, 2 + length), payload[if 2 + length < |payload| then 2 + length else |payload|..])
  }

  lemma BigEndianTwo(hi: Byte, lo: Byte)
    ensures BigEndian([hi, lo]) == 256 * hi + lo
  {
    assert [hi, lo][..1] == [hi];
    assert [hi][..0] == [];
    assert BigEndian([]) == 0;
    assert BigEndian([hi]) == hi;
  }

  /** What publish sends, parse_publish reads. */
  lemma PublishRoundTrip(topic: Bytes, message: Bytes)
    requires |topic| < 65536
    ensures ParsePublish(String(topic) + message) == (topic, message)
  {
    var payload := String(topic) + message;
    BigEndianTwo(|topic| / 256, |topic| % 256);
    assert Clip(payload, 0, 2) == [|topic| / 256, |topic| % 256];
    assert payload[2..2 + |topic|] == topic;
    assert payload[2 + |topic|..] == message;
  }

  /** The packet publish sends. Whatever comes behind it, a reader takes one frame
      off, and that frame holds the topic and the message. */
  method PublishPacket(topic: Bytes, message: Bytes, retain: bool) returns (packet: Bytes)
    requires |topic| < 65536
    ensures forall rest: Bytes ::
      ParseOne(packet + rest) == Some((Frame(if retain then 0x31 else 0x30, String(topic) + message), rest))
    ensures ParsePublish(String(topic) + message) == (topic, message)
  {
    PublishRoundTrip(topic, message);
    var body := String(topic) + message;
    var length := Varint(|body|);
    packet := [if retain then 0x31 else 0x30] + length + body;
    forall rest: Bytes
      ensures ParseOne(packet + rest) == Some((Frame(if retain then 0x31 else 0x30, body), rest))
    {
      ParseEncode(Frame(if retain then 0x31 else 0x30, body), rest);
    }
  }

  // ---- the connection ---------------------------------------------------------------

  datatype Read = Got(frame: Frame) | TimedOut | Closed

  class Publisher {
    var buf: Bytes
    var packetId: nat

    constructor ()
      ensures buf == [] && packetId == 0
    {
      buf, packetId := [], 0;
    }

    /** _parse_buffered: take one complete frame off the front, or none. */
    method ParseBuffered() returns (r: Option<Frame>)
      modifies this`buf
      ensures match ParseOne(old(buf))
        case None => r.None? && buf == old(buf)
        case Some((f, rest)) => r == Some(f) && buf == rest
    {
      if |buf| < 2 {
        return None;
      }
      var counted := RemainingLength(buf);
      if counted.None? {
        return None;
      }
      var (length, i) := counted.value;
      if |buf| < i + length {
        return None;
      }
      r := Some(Frame(buf[0], buf[i..i + length]));
      buf := buf[i + length..];
    }

    /** read_frame: parse, and take another chunk from the socket until a frame
        is complete, the time is up or the broker has closed. */
    method ReadFrame(incoming: seq<Bytes>) returns (r: Read, used: nat)
      modifies this`buf
      ensures used <= |incoming|
      ensures forall k :: 0 <= k < used ==> ParseOne(old(buf) + Join(incoming[..k])).None?
      ensures match r
        case Got(f) => ParseOne(old(buf) + Join(incoming[..used])) == Some((f, buf))
        case TimedOut => used == |incoming| && buf == old(buf) + Join(incoming) && ParseOne(buf).None?
        case Closed => used < |incoming| && incoming[used] == [] && buf == old(buf) + Join(incoming[..used])
    {
      used := 0;
      assert old(buf) + Join(incoming[..0]) == buf;
      while true
        invariant used <= |incoming| && buf == old(buf) + Join(incoming[..used])
        invariant forall k :: 0 <= k < used ==> ParseOne(old(buf) + Join(incoming[..k])).None?
        decreases |incoming| - used
      {
        var frame := ParseBuffered();
        if frame.Some? {
          return Got(frame.value), used;
        }
        if used == |incoming| {
          assert incoming[..used] == incoming;
          return TimedOut, used;
        }
        var chunk := incoming[used];
        if chunk == [] {
          return Closed, used;
        }
        JoinLast(old(buf), incoming[..used + 1]);
        assert incoming[..used + 1][..used] == incoming[..used];
        buf := buf + chunk;
        used := used + 1;
      }
    }

    /** The next packet id: 1 to 65535, round and round. */
    method NextPacketId() returns (id: nat)
      modifies this`packetId
      ensures id == packetId == old(packetId) % 65535 + 1
      ensures 1 <= id <= 65535
    {
      packetId := packetId % 65535 + 1;
      id := packetId;
    }
  }

  /** Whatever the bytes from i on say is what is missing of the length. */
  ghost predicate LengthSoFar(buf: Bytes, length: nat, scale: nat, i: nat) {
    match ReadLength(buf, 1)
    case None => ReadLength(buf, i).None?
    case Some((whole, next)) =>
      ReadLength(buf, i).Some? && ReadLength(buf, i).value.1 == next
      && whole == length + ReadLength(buf, i).value.0 * scale
  }

  lemma LengthStep(buf: Bytes, length: nat, scale: nat, i: nat)
    requires i < |buf| && LengthSoFar(buf, length, scale, i)
    ensures buf[i] >= 128 ==> LengthSoFar(buf, length + (buf[i] - 128) * scale, scale * 128, i + 1)
    ensures buf[i] < 128 ==> ReadLength(buf, 1) == Some((length + buf[i] * scale, i + 1))
  {
    if buf[i] >= 128 && ReadLength(buf, i + 1).Some? {
      ScaleStep(buf[i] - 128, ReadLength(buf, i + 1).value.0, scale);
    }
  }

  lemma ScaleStep(low: nat, rest: nat, scale: nat)
    ensures (low + 128 * rest) * scale == low * scale + rest * (scale * 128)
  {
  }

  /** The loop over the length bytes. */
  method RemainingLength(buf: Bytes) returns (r: Option<(nat, nat)>)
    requires |buf| >= 1
    ensures r == ReadLength(buf, 1)
  {
    var length: nat, scale: nat, i: nat := 0, 1, 1;
    while true
      invariant 1 <= i <= |buf| && LengthSoFar(buf, length, scale, i)
      decreases |buf| - i
    {
      if i >= |buf| {
        return None;
      }
      var byte := buf[i];
      LengthStep(buf, length, scale, i);
      // The bits added are above all earlier ones, so adding is or-ing.
      length := length + (byte % 128) * scale;
      i := i + 1;
      if byte < 128 {
        return Some((length, i));
      }
      scale := scale * 128;
    }
  }

  // ---- CONNECT (MQTT 3.1.1 section 3.1) -----------------------------------------------

  /** What a publisher is set up with; an empty topic or name means none. */
  datatype Settings = Settings(clientId: Bytes, willTopic: Bytes, willPayload: Bytes,
                               username: Bytes, password: Bytes, keepalive: nat)

  predicate Sendable(s: Settings) {
    && |s.clientId| < 65536 && |s.willTopic| < 65536 && |s.willPayload| < 65536
    && |s.username| < 65536 && |s.password| < 65536 && s.keepalive < 65536
  }

  const PROTOCOL: Bytes := [0, 4, 77, 81, 84, 84, 4]   // "MQTT", level 4

  method ConnectBody(s: Settings) returns (body: Bytes)
    requires Sendable(s)
    ensures body == ConnectOf(s)
  {
    var flags: nat := 0x02;
    var payload := String(s.clientId);
    if s.willTopic != [] {
      flags := flags + 0x04 + 0x20;
      payload := payload + (String(s.willTopic) + String(s.willPayload));
    }
    if s.username != [] {
      flags := flags + 0x80;
      payload := payload + String(s.username);
      if s.password != [] {
        flags := flags + 0x40;
        payload := payload + String(s.password);
      }
    }
    body := PROTOCOL + [flags] + [s.keepalive / 256, s.keepalive % 256] + payload;
  }

  function FlagsOf(s: Settings): Byte {
    0x02 + (if s.willTopic != [] then 0x24 else 0)
    + (if s.username != [] then 0x80 + (if s.password != [] then 0x40 else 0) else 0)
  }

  function ConnectOf(s: Settings): Bytes
    requires Sendable(s)
  {
    PROTOCOL + [FlagsOf(s)] + [s.keepalive / 256, s.keepalive % 256] + FieldsOf(s)
  }

  function FieldsOf(s: Settings): Bytes
    requires Sendable(s)
  {
    String(s.clientId)
    + (if s.willTopic != [] then String(s.willTopic) + String(s.willPayload) else [])
    + (if s.username != [] then String(s.username) else [])
    + (if s.username != [] && s.password != [] then String(s.password) else [])
  }

  function TwoBytes(hi: nat, lo: nat): nat {
    256 * hi + lo
  }

  /** One length-prefixed field and the rest. */
  function ReadString(b: Bytes): Option<(Bytes, Bytes)> {
    if |b| < 2 then None
    else
      var n := TwoBytes(b[0], b[1]);
      if |b| < 2 + n then None else Some((b[2..2 + n], b[2 + n..]))
  }

  function ReadIf(present: bool, b: Bytes): Option<(Bytes, Bytes)> {
    if present then ReadString(b) else Some(([], b))
  }

  /** A broker's reading of CONNECT: the flag bits say which fields follow. */
  function ReadConnect(body: Bytes): Option<Settings> {
    if |body| < 10 || body[..7] != PROTOCOL then None
    else
      var flags := body[7];
      ReadFields(flags / 4 % 2 == 1, flags / 128 % 2 == 1, flags / 64 % 2 == 1,
                 TwoBytes(body[8], body[9]), body[10..])
  }

  function ReadFields(will: bool, named: bool, secret: bool, keepalive: nat, b0: Bytes): Option<Settings> {
    match ReadString(b0)
    case None => None
    case Some((client, b1)) =>
      match ReadIf(will, b1)
      case None => None
      case Some((topic, b2)) =>
        match ReadIf(will, b2)
        case None => None
        case Some((payload, b3)) =>
          match ReadIf(named, b3)
          case None => None
          case Some((user, b4)) =>
            match ReadIf(secret, b4)
            case None => None
            case Some((password, b5)) =>
              if b5 != [] then None else Some(Settings(client, topic, payload, user, password, keepalive))
  }

  /** What is said of a connection: no will without a topic, no password without
      a name. */
  function Announced(s: Settings): Settings {
    s.(willPayload := if s.willTopic != [] then s.willPayload else [],
       password := if s.username != [] then s.password else [])
  }

  lemma ReadStringBack(x: Bytes, rest: Bytes)
    requires |x| < 65536
    ensures ReadString(String(x) + rest) == Some((x, rest))
  {
    var b := String(x) + rest;
    assert b[2..2 + |x|] == x;
    assert b[2 + |x|..] == rest;
  }

  lemma ReadIfBack(present: bool, x: Bytes, rest: Bytes)
    requires |x| < 65536
    ensures ReadIf(present, (if present then String(x) else []) + rest) == Some((if present then x else [], rest))
  {
    if present {
      ReadStringBack(x, rest);
    } else {
      assert [] + rest == rest;
    }
  }

  lemma FlagsRead(s: Settings)
    ensures FlagsOf(s) / 4 % 2 == 1 <==> s.willTopic != []
    ensures FlagsOf(s) / 128 % 2 == 1 <==> s.username != []
    ensures FlagsOf(s) / 64 % 2 == 1 <==> s.username != [] && s.password != []
  {
  }

  function Field(present: bool, x: Bytes): Bytes
    requires |x| < 65536
  {
    if present then String(x) else []
  }

  lemma FieldsRead(will: bool, named: bool, secret: bool, s: Settings)
    requires Sendable(s)
    ensures var b4 := Field(secret, s.password) + [];
      var b3 := Field(named, s.username) + b4;
      var b2 := Field(will, s.willPayload) + b3;
      var b1 := Field(will, s.willTopic) + b2;
      ReadFields(will, named, secret, s.keepalive, String(s.clientId) + b1)
      == Some(Settings(s.clientId, if will then s.willTopic else [], if will then s.willPayload else [],
                       if named then s.username else [], if secret then s.password else [], s.keepalive))
  {
    var b4 := Field(secret, s.password) + [];
    var b3 := Field(named, s.username) + b4;
    var b2 := Field(will, s.willPayload) + b3;
    var b1 := Field(will, s.willTopic) + b2;
    ReadStringBack(s.clientId, b1);
    ReadIfBack(will, s.willTopic, b2);
    ReadIfBack(will, s.willPayload, b3);
    ReadIfBack(named, s.username, b4);
    ReadIfBack(secret, s.password, []);
  }

  lemma FieldsSplit(s: Settings)
    requires Sendable(s)
    ensures var will, named, secret := s.willTopic != [], s.username != [], s.username != [] && s.password != [];
      FieldsOf(s) == String(s.clientId)
        + (Field(will, s.willTopic) + (Field(will, s.willPayload)
           + (Field(named, s.username) + (Field(secret, s.password) + []))))
  {
  }

  lemma HeaderRead(s: Settings)
    requires Sendable(s)
    ensures var body := ConnectOf(s);
      && |body| >= 10 && body[..7] == PROTOCOL && body[7] == FlagsOf(s)
      && TwoBytes(body[8], body[9]) == s.keepalive && body[10..] == FieldsOf(s)
  {
  }

  /** A broker recovers the client id, the will, the credentials and the keep
      alive time from the packet's body. */
  lemma ConnectRoundTrip(s: Settings)
    requires Sendable(s)
    ensures ReadConnect(ConnectOf(s)) == Some(Announced(s))
  {
    HeaderRead(s);
    FlagsRead(s);
    FieldsSplit(s);
    FieldsRead(s.willTopic != [], s.username != [], s.username != [] && s.password != [], s);
  }

  /** The packet connect sends. Whatever comes behind it, a broker takes one frame
      off and reads from it what was set up. */
  method ConnectPacket(s: Settings) returns (packet: Bytes)
    requires Sendable(s)
    ensures forall rest: Bytes :: ParseOne(packet + rest) == Some((Frame(0x10, ConnectOf(s)), rest))
    ensures ReadConnect(ConnectOf(s)) == Some(Announced(s))
  {
    ConnectRoundTrip(s);
    var body := ConnectBody(s);
    var length := Varint(|body|);
    packet := [0x10] + length + body;
    forall rest: Bytes
      ensures ParseOne(packet + rest) == Some((Frame(0x10, body), rest))
    {
      ParseEncode(Frame(0x10, body), rest);
    }
  }
}
