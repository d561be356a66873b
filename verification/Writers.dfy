/** The writers of MQTTPacket.c: they store bytes through a moving pointer, here a buffer and a position. */
module Writers {
  import opened Codec

  /** A buffer after the bytes `bs` have been stored at `pos`. */
  ghost function Put(s: seq<byte>, pos: nat, bs: seq<byte>): (r: seq<byte>)
    requires pos + |bs| <= |s|
    ensures |r| == |s|
  {
    s[..pos] + bs + s[pos + |bs|..]
  }

  lemma PutPut(s: seq<byte>, pos: nat, a: seq<byte>, b: seq<byte>)
    requires pos + |a| + |b| <= |s|
    ensures Put(Put(s, pos, a), pos + |a|, b) == Put(s, pos, a + b)
  {
    var t := Put(s, pos, a);
    assert t[..pos + |a|] == s[..pos] + a;
    assert t[pos + |a| + |b|..] == s[pos + |a| + |b|..];
  }

  lemma PutAt(s: seq<byte>, pos: nat, bs: seq<byte>, r: seq<byte>)
    requires pos + |bs| <= |s| == |r|
    requires forall i :: 0 <= i < pos ==> r[i] == s[i]
    requires forall i :: 0 <= i < |bs| ==> r[pos + i] == bs[i]
    requires forall i :: pos + |bs| <= i < |s| ==> r[i] == s[i]
    ensures r == Put(s, pos, bs)
  {
    forall i | 0 <= i < |r| ensures r[i] == Put(s, pos, bs)[i] {
      if pos <= i < pos + |bs| { assert r[i] == bs[i - pos]; }
    }
  }

  method WriteChar(buf: array<byte>, pos: nat, c: byte) returns (next: nat)
    requires pos < buf.Length
    modifies buf
    ensures next == pos + 1 && buf[..] == Put(old(buf[..]), pos, [c])
  {
    buf[pos] := c;
    next := pos + 1;
  }

  method WriteInt(buf: array<byte>, pos: nat, n: int) returns (next: nat)
    requires pos + 2 <= buf.Length && 0 <= n < 65536
    modifies buf
    ensures next == pos + 2 && buf[..] == Put(old(buf[..]), pos, Int2(n))
  {
    next := WriteChar(buf, pos, n / 256);
    next := WriteChar(buf, next, n % 256);
    PutPut(old(buf[..]), pos, [n / 256], [n % 256]);
  }

  lemma Remainders(n: int)
    requires 0 <= n
    ensures n % 16777216 % 65536 == n % 65536 && n % 16777216 % 65536 % 256 == n % 256
  {
    var h, m := n / 16777216, n % 16777216;
    var g, k := m / 65536, m % 65536;
    Mod65536(n, 256 * h + g, k);
    Mod256(n, 65536 * h + 256 * g + k / 256, k % 256);
  }

  method WriteInt4(buf: array<byte>, pos: nat, n: int) returns (next: nat)
    requires pos + 4 <= buf.Length && 0 <= n < 0x1_0000_0000
    modifies buf
    ensures next == pos + 4 && buf[..] == Put(old(buf[..]), pos, Int4(n))
  {
    var rest := n % 16777216;
    buf[pos] := n / 16777216;
    buf[pos + 1] := rest / 65536;
    rest := rest % 65536;
    buf[pos + 2] := rest / 256;
    buf[pos + 3] := rest % 256;
    Remainders(n);
    next := pos + 4;
    PutAt(old(buf[..]), pos, Int4(n), buf[..]);
  }

  /** memcpy. */
  method Copy(buf: array<byte>, pos: nat, data: seq<byte>) returns (next: nat)
    requires pos + |data| <= buf.Length
    modifies buf
    ensures next == pos + |data| && buf[..] == Put(old(buf[..]), pos, data)
  {
    forall i | 0 <= i < |data| {
      buf[pos + i] := data[i];
    }
    next := pos + |data|;
    PutAt(old(buf[..]), pos, data, buf[..]);
  }

  /** writeMQTTLenString and writeData. */
  method WriteLenString(buf: array<byte>, pos: nat, data: seq<byte>) returns (next: nat)
    requires |data| < 65536 && pos + 2 + |data| <= buf.Length
    modifies buf
    ensures next == pos + |LenString(data)| && buf[..] == Put(old(buf[..]), pos, LenString(data))
  {
    next := WriteInt(buf, pos, |data|);
    next := Copy(buf, next, data);
    PutPut(old(buf[..]), pos, Int2(|data|), data);
  }

  /** MQTTPacket_encode; without a buffer it only counts. */
  method Encode(buf: array?<byte>, pos: nat, length: nat) returns (rc: nat)
    requires buf != null ==> pos + |Vbi(length)| <= buf.Length
    modifies buf
    ensures rc == |Vbi(length)|
    ensures buf != null ==> buf[..] == Put(old(buf[..]), pos, Vbi(length))
  {
    var n, more := length, true;
    rc := 0;
    ghost var done: seq<byte> := [];
    while more
      invariant more ==> done + Vbi(n) == Vbi(length)
      invariant !more ==> done == Vbi(length)
      invariant rc == |done| <= |Vbi(length)|
      invariant buf != null ==> buf[..] == Put(old(buf[..]), pos, done)
      decreases more, n
    {
      var d: int := n % 128;
      ghost var before := n;
      n := n / 128;
      if n > 0 {
        d := d + 128;  // d |= 0x80
      }
      assert Vbi(before) == [d] + (if n > 0 then Vbi(n) else []);
      assert done + ([d] + Vbi(n)) == (done + [d]) + Vbi(n);
      if buf != null {
        PutPut(old(buf[..]), pos, done, [d]);
        var next := WriteChar(buf, pos + rc, d);
      }
      rc := rc + 1;
      done := done + [d];
      more := n > 0;
    }
  }
}
