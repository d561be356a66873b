/** PUBLISH packets: what MQTTPacket_send_publish writes to the socket and to the persistent store, and what
    MQTTPersistence_restorePacket and MQTTPacket_publish make of the stored bytes. */
module PublishPacket {
  import opened Codec

  const PUBLISH := 3
  const PUBREL := 6

  datatype Packet = Packet(dup: bool, qos: int, retain: bool, topic: seq<byte>, msgid: int, props: seq<Property>,
                           payload: seq<byte>)

  /** The C string that starts a byte sequence. */
  function CString(t: seq<byte>): (s: seq<byte>)
    ensures 0 !in s && s <= t && (s == t || t[|s|] == 0)
  {
    if t == [] || t[0] == 0 then [] else [t[0]] + CString(t[1..])
  }

  lemma {:induction false} CStringWhole(t: seq<byte>)
    ensures CString(t) == t <==> 0 !in t
  {
    if t != [] && t[0] != 0 {
      CStringWhole(t[1..]);
      assert t == [t[0]] + t[1..];
    }
  }

  function Bit(b: bool): int {
    if b then 1 else 0
  }

  /** The fixed header byte: type, dup, qos and retain from the top bit down. */
  function HeaderByte(ptype: int, dup: bool, qos: int, retain: bool): byte
    requires 0 <= ptype < 16 && 0 <= qos < 4
  {
    16 * ptype + 8 * Bit(dup) + 2 * qos + Bit(retain)
  }

  function TypeBits(h: byte): int { h / 16 }
  function DupBit(h: byte): bool { h / 8 % 2 == 1 }
  function QosBits(h: byte): int { h / 2 % 4 }
  function RetainBit(h: byte): bool { h % 2 == 1 }

  /** What a caller may send. */
  predicate Sendable(v5: bool, p: Packet) {
    && 0 <= p.qos <= 2 && |p.topic| < 65536
    && (if p.qos > 0 then 0 <= p.msgid < 65536 else p.msgid == 0)
    && (if v5 then AllInRange(p.props) && |ListBytes(p.props)| < VBI_LIMIT else p.props == [])
  }

  /** Message id and properties. */
  function Middle(v5: bool, p: Packet): seq<byte>
    requires Sendable(v5, p)
  {
    (if p.qos > 0 then Int2(p.msgid) else []) + (if v5 then Block(p.props) else [])
  }

  function Body(v5: bool, p: Packet): seq<byte>
    requires Sendable(v5, p)
  {
    LenString(CString(p.topic)) + Middle(v5, p) + p.payload
  }

  /** The whole packet, which is also the persisted record. */
  function Serialize(v5: bool, p: Packet): seq<byte>
    requires Sendable(v5, p)
  {
    [HeaderByte(PUBLISH, p.dup, p.qos, p.retain)] + Vbi(|Body(v5, p)|) + Body(v5, p)
  }

  /** The bytes of a PUBLISH, as section 3.3 of MQTT 5.0 lays them out; Vbi and Block are spelled out by Codec. */
  lemma Spelled(v5: bool, p: Packet)
    requires Sendable(v5, p)
    ensures var topic := CString(p.topic);
            var rest := [|topic| / 256, |topic| % 256] + topic +
                        (if p.qos > 0 then [p.msgid / 256, p.msgid % 256] else []) +
                        (if v5 then Block(p.props) else []) + p.payload;
            Serialize(v5, p) ==
              [48 + (if p.dup then 8 else 0) + 2 * p.qos + (if p.retain then 1 else 0)] + Vbi(|rest|) + rest
  {
    hide CString, Block, Vbi, ListBytes, AllInRange;
    var topic, b := CString(p.topic), if v5 then Block(p.props) else [];
    var id: seq<byte> := if p.qos > 0 then [p.msgid / 256, p.msgid % 256] else [];
    var len: seq<byte> := [|topic| / 256, |topic| % 256];
    assert Body(v5, p) == (len + topic) + (id + b) + p.payload;
    assert (len + topic) + (id + b) + p.payload == len + topic + id + b + p.payload;
  }

  function SerializePubrel(msgid: int): seq<byte>
    requires 0 <= msgid < 65536
  {
    [HeaderByte(PUBREL, false, 1, false)] + Vbi(2) + Int2(msgid)
  }

  // ---- reading

  datatype Pack = Published(p: Packet) | Acknowledged(msgid: int, rc: int) | NoPack | Overran

  /** MQTTPacket_publish. */
  function ParsePublish(v5: bool, h: byte, data: seq<byte>): Pack {
    match ReadLenString(data)
    case Bad => NoPack
    case Overrun => Overran
    case Ok(topic, d) => ParseRest(v5, h, topic, d)
  }

  /** What follows the topic. */
  function ParseRest(v5: bool, h: byte, topic: seq<byte>, d: seq<byte>): Pack {
    var qos := QosBits(h);
    if qos > 0 && |d| < 2 then NoPack
    else
      var msgid := if qos > 0 then 256 * (d[0] as int) + d[1] as int else 0;
      ParseTail(v5, Packet(DupBit(h), qos, RetainBit(h), topic, msgid, [], []), if qos > 0 then d[2..] else d)
  }

  function ParseTail(v5: bool, p: Packet, d: seq<byte>): Pack {
    if !v5 then Published(p.(payload := d))
    else
      match ReadProperties(d)
      case Ok(props, rest) => Published(p.(props := props, payload := rest))
      case Bad => NoPack
      case Overrun => Overran
  }

  /** MQTTPacket_ack for the acknowledgements that carry a message id. */
  function ParseAck(v5: bool, data: seq<byte>): Pack {
    if |data| < 2 then NoPack
    else
      var msgid := 256 * (data[0] as int) + data[1] as int;
      var rc := if v5 && |data| > 2 then data[2] as int else 0;
      if v5 && |data| > 3 then
        match ReadProperties(data[3..])
        case Ok(_, _) => Acknowledged(msgid, rc)
        case Bad => NoPack
        case Overrun => Overran
      else Acknowledged(msgid, rc)
  }

  /** The remaining-length loop of restorePacket, which takes as many digits as there are. */
  function RemainingLength(d: seq<byte>): (r: Digits)
    ensures r.Digits? ==> 1 <= r.len <= |d|
  {
    if d == [] then NoDigits
    else if d[0] < 128 then Digits(d[0], 1)
    else
      var r := RemainingLength(d[1..]);
      if r.NoDigits? then NoDigits else Digits(d[0] % 128 + 128 * r.value, 1 + r.len)
  }

  /** MQTTPersistence_restorePacket, for the packet types that are persisted. */
  function RestorePacket(v5: bool, buffer: seq<byte>): Pack {
    if buffer == [] then Overran
    else
      var r := RemainingLength(buffer[1..]);
      if r.NoDigits? then Overran
      else if 1 + r.len + r.value != |buffer| then NoPack
      else
        var data := buffer[1 + r.len..];
        if TypeBits(buffer[0]) == PUBLISH then ParsePublish(v5, buffer[0], data)
        else if TypeBits(buffer[0]) == PUBREL then ParseAck(v5, data)
        else NoPack
  }

  // ---- round trips

  lemma HeaderBits(ptype: int, dup: bool, qos: int, retain: bool)
    requires 0 <= ptype < 16 && 0 <= qos < 4
    ensures var h := HeaderByte(ptype, dup, qos, retain);
            TypeBits(h) == ptype && DupBit(h) == dup && QosBits(h) == qos && RetainBit(h) == retain
  {
    var h: int, d, r := HeaderByte(ptype, dup, qos, retain) as int, Bit(dup), Bit(retain);
    assert h == 16 * ptype + (8 * d + 2 * qos + r) && 0 <= 8 * d + 2 * qos + r < 16;
    assert h / 16 == ptype;
    assert h / 8 == 2 * ptype + d;
    assert h / 2 == 4 * (2 * ptype + d) + qos;
    assert h == 2 * (h / 2) + r;
  }

  lemma {:induction false} RemainingLengthOf(n: nat, r: seq<byte>)
    ensures RemainingLength(Vbi(n) + r) == Digits(n, |Vbi(n)|)
  {
    var d := Vbi(n) + r;
    if n >= 128 {
      assert d[0] == n % 128 + 128 && d[1..] == Vbi(n / 128) + r;
      RemainingLengthOf(n / 128, r);
    } else {
      assert d[0] == n;
    }
  }

  lemma ParsesTail(v5: bool, p: Packet, q: Packet)
    requires Sendable(v5, p) && q == p.(props := [], payload := [])
    ensures ParseTail(v5, q, (if v5 then Block(p.props) else []) + p.payload) == Published(p)
  {
    hide ReadProperties, Block, AllInRange, ListBytes;
    if v5 {
      PropertiesRoundTrip(p.props, p.payload);
    } else {
      assert [] + p.payload == p.payload;
    }
  }

  lemma ParsesRest(v5: bool, p: Packet)
    requires Sendable(v5, p)
    ensures ParseRest(v5, HeaderByte(PUBLISH, p.dup, p.qos, p.retain), p.topic, Middle(v5, p) + p.payload) ==
      Published(p)
  {
    hide ReadProperties, Block, AllInRange, ListBytes, ParseTail;
    HeaderBits(PUBLISH, p.dup, p.qos, p.retain);
    var q := p.(props := [], payload := []);
    var d := (if v5 then Block(p.props) else []) + p.payload;
    ParsesTail(v5, p, q);
    if p.qos > 0 {
      assert Middle(v5, p) + p.payload == Int2(p.msgid) + d;
      assert (Int2(p.msgid) + d)[2..] == d;
    } else {
      assert Middle(v5, p) + p.payload == d;
    }
  }

  lemma ParsesBody(v5: bool, p: Packet)
    requires Sendable(v5, p)
    ensures ParsePublish(v5, HeaderByte(PUBLISH, p.dup, p.qos, p.retain), Body(v5, p)) ==
      Published(p.(topic := CString(p.topic)))
  {
    hide ReadLenString, LenString, CString, ParseRest, HeaderByte;
    var q := p.(topic := CString(p.topic));
    var d := Middle(v5, p) + p.payload;
    assert Body(v5, p) == LenString(q.topic) + d;
    assert Middle(v5, q) == Middle(v5, p);
    LenStringRoundTrip(q.topic, d);
    ParsesRest(v5, q);
  }

  /** A PUBLISH survives serialize, persist, restore and parse in both versions, for every remaining length that
      the int of restorePacket can hold. The topic comes back up to its first NUL. */
  lemma PublishRoundTrip(v5: bool, p: Packet)
    requires Sendable(v5, p) && |Body(v5, p)| < 0x8000_0000
    ensures RestorePacket(v5, Serialize(v5, p)) == Published(p.(topic := CString(p.topic)))
    ensures RestorePacket(v5, Serialize(v5, p)) == Published(p) <==> 0 !in p.topic
  {
    hide ParsePublish, Body, HeaderByte, Vbi, CString, RestorePacket;
    HeaderBits(PUBLISH, p.dup, p.qos, p.retain);
    FramedRestore(v5, HeaderByte(PUBLISH, p.dup, p.qos, p.retain), Body(v5, p), Serialize(v5, p));
    ParsesBody(v5, p);
    CStringWhole(p.topic);
  }

  /** The frame around a packet: header byte, remaining length, the rest. */
  lemma FramedRestore(v5: bool, h: byte, body: seq<byte>, b: seq<byte>)
    requires b == [h] + Vbi(|body|) + body
    ensures RestorePacket(v5, b) ==
              if TypeBits(h) == PUBLISH then ParsePublish(v5, h, body)
              else if TypeBits(h) == PUBREL then ParseAck(v5, body)
              else NoPack
  {
    hide ParsePublish, ParseAck, Vbi, TypeBits, RemainingLength;
    RemainingLengthOf(|body|, body);
    Split3(h, Vbi(|body|), body);
    assert RemainingLength(b[1..]) == Digits(|body|, |Vbi(|body|)|);
  }

  lemma Split3(h: byte, v: seq<byte>, body: seq<byte>)
    ensures var b := [h] + v + body;
            |b| == 1 + |v| + |body| && b[0] == h && b[1..] == v + body && b[1 + |v|..] == body
  {
  }

  /** An acknowledgement's id and, in version 5, the reason code behind it, which is 0 if left out; properties may
      follow. */
  lemma AckParsed(v5: bool, msgid: int, rc: byte, props: seq<Property>)
    requires 0 <= msgid < 65536 && AllInRange(props) && |ListBytes(props)| < VBI_LIMIT
    ensures ParseAck(v5, [msgid / 256, msgid % 256]) == Acknowledged(msgid, 0)
    ensures ParseAck(v5, [msgid / 256, msgid % 256, rc]) == Acknowledged(msgid, if v5 then rc else 0)
    ensures ParseAck(v5, [msgid / 256, msgid % 256, rc] + Block(props)) == Acknowledged(msgid, if v5 then rc else 0)
  {
    hide ReadProperties, Block, AllInRange, ListBytes;
    PropertiesRoundTrip(props, []);
    var d: seq<byte> := [msgid / 256, msgid % 256, rc];
    assert (d + Block(props))[3..] == Block(props) + [];
    BlockNotEmpty(props);
  }

  lemma BlockNotEmpty(props: seq<Property>)
    requires AllInRange(props)
    ensures |Block(props)| >= 1
  {
  }

  lemma PubrelRoundTrip(v5: bool, msgid: int)
    requires 0 <= msgid < 65536
    ensures SerializePubrel(msgid) == [98, 2, msgid / 256, msgid % 256]
    ensures RestorePacket(v5, SerializePubrel(msgid)) == Acknowledged(msgid, 0)
  {
    HeaderBits(PUBREL, false, 1, false);
    FramedRestore(v5, HeaderByte(PUBREL, false, 1, false), Int2(msgid), SerializePubrel(msgid));
  }
}
