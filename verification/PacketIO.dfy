/** Sending a PUBLISH from several buffers (MQTTPacket_send_publish and MQTTPacket_sends) and rebuilding a packet from
    its stored bytes (MQTTPersistence_restorePacket). */
module PacketIO {
  import opened Codec
  import opened Properties
  import opened PublishPacket
  import opened Writers

  /** What MQTTPersistence_putPacket is given, if it is called. */
  datatype Record = NotStored | Stored(msgid: int, bytes: seq<byte>)

  lemma ConcatStep(bufs: seq<seq<byte>>, k: nat)
    requires k < |bufs|
    ensures Concat(bufs[..k + 1]) == Concat(bufs[..k]) + bufs[k]
  {
    assert bufs[..k + 1][..k] == bufs[..k];
  }

  /** MQTTPacket_sends. The message id of a PUBLISH to be stored is read back from the third buffer. */
  method Sends(header: byte, bufs: seq<seq<byte>>) returns (wire: seq<byte>, put: Record)
    requires TypeBits(header) == PUBLISH && QosBits(header) != 0 ==> |bufs| > 2 && |bufs[2]| >= 2
    ensures wire == [header] + Vbi(|Concat(bufs)|) + Concat(bufs)
    ensures put ==
      if TypeBits(header) == PUBLISH && QosBits(header) != 0 then Stored(ReadInt(bufs[2]).value, wire) else NotStored
  {
    hide Vbi, TypeBits, QosBits;
    var total, rest, i: nat := 0, [], 0;
    while i < |bufs|
      invariant i <= |bufs| && rest == Concat(bufs[..i]) && total == |rest|
    {
      ConcatStep(bufs, i);
      rest := rest + bufs[i];
      total := total + |bufs[i]|;
      i := i + 1;
    }
    assert bufs[..|bufs|] == bufs;
    var none: array?<byte> := null;
    var digits := Encode(none, 0, total);
    var buf := new byte[1 + digits];
    buf[0] := header;
    digits := Encode(buf, 1, total);
    assert buf[..] == [header] + Vbi(total);
    wire := buf[..] + rest;
    put := NotStored;
    if TypeBits(header) == PUBLISH && QosBits(header) != 0 {
      put := Stored(256 * (bufs[2][0] as int) + bufs[2][1] as int, wire);
    }
  }

  /** MQTTPacket_send_publish: the bytes written and the bytes stored are the packet's serialization, stored under its
      own id exactly when its QoS is not 0. Section 3.3 of MQTT 5.0 gives the form: type, flags and length, then topic,
      id, properties and payload, numbers high byte first. */
  method SendPublish(v5: bool, p: Packet, props: PropertyList) returns (wire: seq<byte>, put: Record)
    requires Sendable(v5, p) && props.Valid() && props.Items() == p.props
    ensures wire == Serialize(v5, p)
    ensures put == if p.qos != 0 then Stored(p.msgid, wire) else NotStored
    ensures var topic := CString(p.topic);
            var rest := [|topic| / 256, |topic| % 256] + topic +
                        (if p.qos > 0 then [p.msgid / 256, p.msgid % 256] else []) +
                        (if v5 then Block(p.props) else []) + p.payload;
            wire == [48 + (if p.dup then 8 else 0) + 2 * p.qos + (if p.retain then 1 else 0)] + Vbi(|rest|) + rest
  {
    hide HeaderByte, Vbi, ListBytes, AllInRange, CString, Block;
    HeaderBits(PUBLISH, p.dup, p.qos, p.retain);
    hide TypeBits, QosBits, DupBit, RetainBit;
    var header := HeaderByte(PUBLISH, p.dup, p.qos, p.retain);
    var topic := CString(p.topic);
    var topiclen := new byte[2];
    var _ := WriteInt(topiclen, 0, |topic|);
    assert topiclen[..] == Int2(|topic|);
    if p.qos > 0 || v5 {
      var middle := WriteMiddle(v5, p, props);
      var bufs := [topiclen[..], topic, middle, p.payload];
      FourBuffers(bufs[0], bufs[1], bufs[2], bufs[3]);
      if p.qos > 0 { IntFirst(p.msgid, middle); }
      wire, put := Sends(header, bufs);
    } else {
      var bufs := [topiclen[..], topic, p.payload];
      ThreeBuffers(bufs[0], bufs[1], bufs[2]);
      wire, put := Sends(header, bufs);
    }
    assert wire == Serialize(v5, p);
    hide Serialize, Sendable, Middle, Body;
    Spelled(v5, p);
  }

  /** The buffer with the message id and the properties. */
  method WriteMiddle(v5: bool, p: Packet, props: PropertyList) returns (middle: seq<byte>)
    requires Sendable(v5, p) && props.Valid() && props.Items() == p.props
    ensures middle == Middle(v5, p)
  {
    hide Vbi, ListBytes, AllInRange, Block, CString;
    var buflen := if p.qos > 0 then 2 else 0;
    if v5 {
      LengthBelow(props);
      var n := props.Len();
      buflen := buflen + n;
    }
    var buf := new byte[buflen];
    var ptr := 0;
    if p.qos > 0 {
      ptr := WriteInt(buf, ptr, p.msgid);
    }
    ghost var was := buf[..];
    if v5 {
      ptr := props.Write(buf, ptr);
    }
    middle := buf[..];
  }

  lemma LengthBelow(props: PropertyList)
    requires props.Valid() && AllInRange(props.Items()) && |ListBytes(props.Items())| < VBI_LIMIT
    ensures props.length < VBI_LIMIT
  {
  }

  lemma IntFirst(n: int, middle: seq<byte>)
    requires 0 <= n < 65536 && |middle| >= 2 && middle[..2] == Int2(n)
    ensures ReadInt(middle).value == n
  {
    IntRoundTrips(n, middle[2..]);
    assert middle == Int2(n) + middle[2..];
  }

  lemma FourBuffers(a: seq<byte>, b: seq<byte>, c: seq<byte>, d: seq<byte>)
    ensures Concat([a, b, c, d]) == a + b + c + d
  {
    var bufs := [a, b, c, d];
    ConcatStep(bufs, 0);
    ConcatStep(bufs, 1);
    ConcatStep(bufs, 2);
    ConcatStep(bufs, 3);
    assert bufs[..4] == bufs && Concat(bufs[..0]) == [];
  }

  lemma ThreeBuffers(a: seq<byte>, b: seq<byte>, c: seq<byte>)
    ensures Concat([a, b, c]) == a + b + c
  {
    var bufs := [a, b, c];
    ConcatStep(bufs, 0);
    ConcatStep(bufs, 1);
    ConcatStep(bufs, 2);
    assert bufs[..3] == bufs && Concat(bufs[..0]) == [];
  }

  /** The remaining-length loop, one byte on. */
  lemma LengthStep(d: seq<byte>, i: nat, value: int, multiplier: nat)
    requires i < |d| && RemainingLength(d[i..]).Digits?
    ensures var v := value + DigitValue(d[i], multiplier);
            var r := RemainingLength(d[i..]);
            var all := Digits(Scaled(value, multiplier, r.value), i + r.len);
            if d[i] < 128 then all == Digits(v, i + 1)
            else i + 1 < |d| && RemainingLength(d[i + 1..]).Digits?
                 && all == Digits(Scaled(v, multiplier * 128, RemainingLength(d[i + 1..]).value),
                                  i + 1 + RemainingLength(d[i + 1..]).len)
  {
    hide Scaled;
    assert d[i..][1..] == d[i + 1..];
    ScaledDigit(value, multiplier, d[i] as int % 128, if d[i] < 128 then 0 else RemainingLength(d[i + 1..]).value);
  }

  /** MQTTPersistence_restorePacket, on records whose reading stays inside the buffer. */
  method Restore(v5: bool, buffer: seq<byte>) returns (pack: Pack)
    requires !RestorePacket(v5, buffer).Overran?
    ensures pack == RestorePacket(v5, buffer)
  {
    ghost var d := buffer[1..];
    ghost var all := RemainingLength(d);
    assert d[0..] == d;
    ScaledDigit(0, 1, all.value, 0);
    hide RemainingLength, Scaled, DigitValue, ParsePublish, ParseAck, TypeBits;
    var fixedHeaderLength, remainingLength, multiplier, more := 1, 0, 1, true;
    while more
      invariant 1 <= fixedHeaderLength <= |buffer| && multiplier >= 1
      invariant more ==> fixedHeaderLength < |buffer| && RemainingLength(d[fixedHeaderLength - 1..]).Digits?
      invariant more ==>
        all == Digits(Scaled(remainingLength, multiplier, RemainingLength(d[fixedHeaderLength - 1..]).value),
                      fixedHeaderLength - 1 + RemainingLength(d[fixedHeaderLength - 1..]).len)
      invariant !more ==> all == Digits(remainingLength, fixedHeaderLength - 1)
      decreases |buffer| - fixedHeaderLength, more
    {
      var c := buffer[fixedHeaderLength];
      LengthStep(d, fixedHeaderLength - 1, remainingLength, multiplier);
      remainingLength := remainingLength + DigitValue(c, multiplier);
      multiplier := multiplier * 128;
      fixedHeaderLength := fixedHeaderLength + 1;
      more := c >= 128;
    }
    pack := NoPack;
    if fixedHeaderLength + remainingLength == |buffer| {
      var ptype := TypeBits(buffer[0]);
      if ptype == PUBLISH {
        pack := ParsePublish(v5, buffer[0], buffer[fixedHeaderLength..]);
      } else if ptype == PUBREL {
        pack := ParseAck(v5, buffer[fixedHeaderLength..]);
      }
    }
  }

  /** A publish that is sent, stored and found again after a restart is the publish that was sent. */
  method SendThenRestore(v5: bool, p: Packet, props: PropertyList) returns (wire: seq<byte>, pack: Pack)
    requires Sendable(v5, p) && props.Valid() && props.Items() == p.props && p.qos > 0
    requires |Body(v5, p)| < 0x8000_0000 && 0 !in p.topic
    ensures wire == Serialize(v5, p) && pack == Published(p)
  {
    hide Serialize, RestorePacket, Body;
    var put;
    wire, put := SendPublish(v5, p, props);
    PublishRoundTrip(v5, p);
    pack := Restore(v5, put.bytes);
  }
}
