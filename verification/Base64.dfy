/** Base64.c without OpenSSL: encoding and decoding between buffers, against section 4 of RFC 4648. */
module Base64 {
  import opened Codec

  /** b64_size_t is an unsigned 32-bit integer. */
  const SIZE_LIMIT := 0x1_0000_0000

  const NV := 64

  function Letter(i: nat): char
    requires i <= 64
  {
    if i < 26 then ('A' as int + i) as char
    else if i < 52 then ('a' as int + i - 26) as char
    else if i < 62 then ('0' as int + i - 52) as char
    else if i == 62 then '+' else if i == 63 then '/' else '='
  }

  /** The decoding table: NV for whatever is not a letter. */
  function Value(c: char): (v: nat)
    ensures v <= NV
  {
    if 'A' <= c <= 'Z' then c as int - 'A' as int
    else if 'a' <= c <= 'z' then c as int - 'a' as int + 26
    else if '0' <= c <= '9' then c as int - '0' as int + 52
    else if c == '+' then 62 else if c == '/' then 63 else NV
  }

  lemma LetterValue(i: nat)
    requires i <= 64
    ensures Value(Letter(i)) == i
  {
  }

  /** Table 1 of RFC 4648 by character codes, and its inverse. */
  lemma Alphabet(i: nat)
    requires i <= 64
    ensures Letter(i) as int == if i < 26 then 65 + i else if i < 52 then 71 + i else if i < 62 then i - 4
                                else if i == 62 then 43 else if i == 63 then 47 else 61
    ensures Value(Letter(i)) == i
    ensures forall c :: Value(c) != 64 ==> Letter(Value(c)) == c
  {
    LetterValue(i);
    forall c | Value(c) != 64 ensures Letter(Value(c)) == c {
    }
  }

  // ---- section 4 of RFC 4648

  /** The four letters of a 24-bit group, highest first. */
  function Letters(group: nat): (t: string)
    requires group < 0x100_0000
    ensures |t| == 4
  {
    [Letter(group / 262144), Letter(group / 4096 % 64), Letter(group / 64 % 64), Letter(group % 64)]
  }

  function Group(a: byte, b: byte, c: byte): nat {
    65536 * (a as int) + 256 * (b as int) + c as int
  }

  /** Groups of three bytes; a last group of one or two is filled up with zero bits, and the letters that hold nothing
      are padding. */
  function Encoding(s: seq<byte>): string {
    if |s| == 0 then ""
    else if |s| == 1 then Letters(Group(s[0], 0, 0))[..2] + "=="
    else if |s| == 2 then Letters(Group(s[0], s[1], 0))[..3] + "="
    else Letters(Group(s[0], s[1], s[2])) + Encoding(s[3..])
  }

  lemma SixBits(group: nat, p: int, q: int, r: int, s: int)
    requires group == 262144 * p + 4096 * q + 64 * r + s && 0 <= p < 64 && 0 <= q < 64 && 0 <= r < 64 && 0 <= s < 64
    ensures group / 262144 == p && group / 4096 % 64 == q && group / 64 % 64 == r && group % 64 == s
  {
    assert group / 64 == 4096 * p + 64 * q + r;
    assert group / 4096 == 64 * p + q;
  }

  /** The bits as the encoder picks them out of the bytes. */
  lemma GroupLetters(a: byte, b: byte, c: byte)
    ensures Letters(Group(a, b, c)) ==
              [Letter(a as int / 4), Letter(a as int % 4 * 16 + b as int / 16),
               Letter(b as int % 16 * 4 + c as int / 64), Letter(c as int % 64)]
  {
    var x, y, z := a as int, b as int, c as int;
    assert x == x / 4 * 4 + x % 4 && y == y / 16 * 16 + y % 16 && z == z / 64 * 64 + z % 64;
    SixBits(Group(a, b, c), x / 4, x % 4 * 16 + y / 16, y % 16 * 4 + z / 64, z % 64);
  }

  function Text(c: seq<nat>): (t: string)
    requires |c| == 4 && c[0] <= 64 && c[1] <= 64 && c[2] <= 64 && c[3] <= 64
    ensures |t| == 4
  {
    [Letter(c[0]), Letter(c[1]), Letter(c[2]), Letter(c[3])]
  }

  lemma OneByteLetters(a: byte)
    ensures Letters(Group(a, 0, 0))[..2] + "==" == Text([a as int / 4, a as int % 4 * 16, 64, 64])
  {
    GroupLetters(a, 0, 0);
    assert Letter(64) == '=';
    hide Letter, Letters, Group;
  }

  lemma TwoByteLetters(a: byte, b: byte)
    ensures Letters(Group(a, b, 0))[..3] + "=" ==
      Text([a as int / 4, a as int % 4 * 16 + b as int / 16, b as int % 16 * 4, 64])
  {
    GroupLetters(a, b, 0);
    assert Letter(64) == '=';
    hide Letter, Letters, Group;
  }

  /** What the encoder picks for the first group of a byte string. */
  function Picked(s: seq<byte>): (c: seq<nat>)
    requires s != []
    ensures |c| == 4 && c[0] <= 64 && c[1] <= 64 && c[2] <= 64 && c[3] <= 64
  {
    if |s| == 1 then [s[0] as int / 4, s[0] as int % 4 * 16, 64, 64]
    else if |s| == 2 then [s[0] as int / 4, s[0] as int % 4 * 16 + s[1] as int / 16, s[1] as int % 16 * 4, 64]
    else
      [s[0] as int / 4, s[0] as int % 4 * 16 + s[1] as int / 16, s[1] as int % 16 * 4 + s[2] as int / 64,
       s[2] as int % 64]
  }

  function Rest(s: seq<byte>): (r: seq<byte>)
    requires s != []
    ensures |r| < |s|
  {
    if |s| <= 3 then [] else s[3..]
  }

  lemma EncodingStep(s: seq<byte>)
    requires s != []
    ensures Encoding(s) == Text(Picked(s)) + Encoding(Rest(s))
  {
    if |s| == 1 {
      OneByteLetters(s[0]);
      assert Encoding(Rest(s)) == "";
    } else if |s| == 2 {
      TwoByteLetters(s[0], s[1]);
      assert Encoding(Rest(s)) == "";
    } else {
      GroupLetters(s[0], s[1], s[2]);
      assert s[3..] == Rest(s);
      hide Rest;
    }
    hide Letters, Group, Letter;
  }

  // ---- lengths

  /** Base64_encodeLength: unsigned arithmetic, rounded down to a multiple of four. */
  function EncodeLength(n: nat): nat {
    (4 * n % SIZE_LIMIT / 3 + 3) / 4 * 4
  }

  /** Base64_decodeLength. */
  function DecodeLength(t: string): nat {
    var pad := (if |t| > 1 && t[|t| - 2] == '=' then 1 else 0) + (if |t| > 0 && t[|t| - 1] == '=' then 1 else 0);
    (|t| / 4 * 3 - pad) % SIZE_LIMIT
  }

  lemma {:induction false} EncodingSize(s: seq<byte>)
    ensures |Encoding(s)| == (|s| + 2) / 3 * 4
  {
    hide Letters, Group;
    if |s| >= 3 {
      EncodingSize(s[3..]);
    }
  }

  lemma RoundedUp(n: nat)
    ensures (4 * n / 3 + 3) / 4 == (n + 2) / 3
  {
    var k, r := n / 3, n % 3;
    assert n == 3 * k + r;
    assert 4 * n / 3 == 4 * k + r;
  }

  lemma Overflowed(n: nat, m: nat)
    requires m <= 4 * n - SIZE_LIMIT
    ensures (m / 3 + 3) / 4 * 4 < (n + 2) / 3 * 4
  {
    var e, size := m / 3, (n + 2) / 3;
    assert 3 * e <= m && 3 * size >= n;
    assert (e + 3) / 4 * 4 <= e + 3;
  }

  /** encodeLength is the size of the encoding exactly as long as its own product does not overflow. */
  lemma EncodeLengthExact(s: seq<byte>)
    requires |s| < SIZE_LIMIT
    ensures EncodeLength(|s|) == |Encoding(s)| <==> 4 * |s| < SIZE_LIMIT
  {
    hide Encoding;
    EncodingSize(s);
    if 4 * |s| < SIZE_LIMIT {
      RoundedUp(|s|);
    } else {
      Overflowed(|s|, 4 * |s| % SIZE_LIMIT);
    }
  }

  // ---- decoding

  /** The first byte of a group. A second letter outside the table sets bit 2 (64 / 16 is 4). */
  function FirstByte(c0: nat, c1: nat): byte
    requires c0 <= NV && c1 <= NV
  {
    if c1 < NV then c0 * 4 % 256 + c1 / 16 else if c0 % 2 == 1 then c0 * 4 else c0 * 4 % 256 + 4
  }

  /** The bytes of a group: padding, or anything else that is no letter, ends the data. */
  function Bytes(c0: nat, c1: nat, c2: nat, c3: nat): (b: seq<byte>)
    requires c0 <= NV && c1 <= NV && c2 <= NV && c3 <= NV
    ensures 1 <= |b| <= 3
  {
    if c2 == NV then [FirstByte(c0, c1)]
    else if c3 == NV then [FirstByte(c0, c1), c1 % 16 * 16 + c2 / 4]
    else [FirstByte(c0, c1), c1 % 16 * 16 + c2 / 4, c2 % 4 * 64 + c3]
  }

  /** What the decoder writes when there is room for `room` bytes. */
  function Decoding(t: string, room: nat): (s: seq<byte>)
    ensures |s| <= room
  {
    if |t| <= 3 || room == 0 then []
    else
      var b := Bytes(Value(t[0]), Value(t[1]), Value(t[2]), Value(t[3]));
      if |b| > room then b[..room] else if |b| < 3 then b else b + Decoding(t[4..], room - 3)
  }

  lemma DecodingStep(c0: nat, c1: nat, c2: nat, c3: nat, t: string, room: nat)
    requires c0 <= NV && c1 <= NV && c2 <= NV && c3 <= NV && room > 0
    ensures var b := Bytes(c0, c1, c2, c3);
            Decoding(Text([c0, c1, c2, c3]) + t, room) ==
              if |b| > room then b[..room] else if |b| < 3 then b else b + Decoding(t, room - 3)
  {
    LetterValue(c0);
    LetterValue(c1);
    LetterValue(c2);
    LetterValue(c3);
    hide Value, Letter, Bytes;
    assert (Text([c0, c1, c2, c3]) + t)[4..] == t;
  }

  lemma WholeGroup(a: byte, b: byte, c: byte, t: string, room: nat)
    requires room >= 3
    ensures Decoding(Letters(Group(a, b, c)) + t, room) == [a, b, c] + Decoding(t, room - 3)
  {
    hide Letters, Letter, Decoding;
    var x, y, z := a as int, b as int, c as int;
    GroupLetters(a, b, c);
    DecodingStep(x / 4, x % 4 * 16 + y / 16, y % 16 * 4 + z / 64, z % 64, t, room);
    Halves(x, y, z);
  }

  lemma Halves(x: int, y: int, z: int)
    requires 0 <= x < 256 && 0 <= y < 256 && 0 <= z < 256
    ensures var c0, c1, c2, c3 := x / 4, x % 4 * 16 + y / 16, y % 16 * 4 + z / 64, z % 64;
            c0 * 4 % 256 + c1 / 16 == x && c1 % 16 * 16 + c2 / 4 == y && c2 % 4 * 64 + c3 == z
  {
  }

  /** Decoding undoes encoding for every byte string, into any buffer with room for it. */
  lemma {:induction false} DecodeEncode(s: seq<byte>, room: nat)
    requires room >= |s|
    ensures Decoding(Encoding(s), room) == s
  {
    assert Decoding("", room) == [];
    hide Letters, Value, Group, Decoding;
    if |s| == 1 {
      LastOne(s[0], room);
    } else if |s| == 2 {
      LastTwo(s[0], s[1], room);
    } else if |s| >= 3 {
      assert Encoding(s) == Letters(Group(s[0], s[1], s[2])) + Encoding(s[3..]);
      assert s == [s[0], s[1], s[2]] + s[3..];
      hide Encoding, Letter;
      WholeGroup(s[0], s[1], s[2], Encoding(s[3..]), room);
      DecodeEncode(s[3..], room - 3);
    }
  }

  lemma LastOne(a: byte, room: nat)
    requires room >= 1
    ensures Decoding(Letters(Group(a, 0, 0))[..2] + "==", room) == [a]
  {
    hide Letters, Letter, Decoding, Text;
    var x := a as int;
    OneByteLetters(a);
    assert Text([x / 4, x % 4 * 16, 64, 64]) + "" == Text([x / 4, x % 4 * 16, 64, 64]);
    DecodingStep(x / 4, x % 4 * 16, NV, NV, "", room);
    Halves(x, 0, 0);
  }

  lemma LastTwo(a: byte, b: byte, room: nat)
    requires room >= 2
    ensures Decoding(Letters(Group(a, b, 0))[..3] + "=", room) == [a, b]
  {
    hide Letters, Letter, Decoding, Text;
    var x, y := a as int, b as int;
    TwoByteLetters(a, b);
    var t := Text([x / 4, x % 4 * 16 + y / 16, y % 16 * 4, 64]);
    assert t + "" == t;
    DecodingStep(x / 4, x % 4 * 16 + y / 16, y % 16 * 4, NV, "", room);
    Halves(x, y, 0);
  }

  lemma PadLetters(c: seq<nat>)
    requires |c| == 4 && c[0] <= 64 && c[1] <= 64 && c[2] <= 64 && c[3] <= 64
    ensures |Text(c)| == 4 && (Text(c)[2] == '=' <==> c[2] == 64) && (Text(c)[3] == '=' <==> c[3] == 64)
  {
  }

  lemma PickedPads(s: seq<byte>)
    requires s != []
    ensures (Picked(s)[2] == 64 <==> |s| == 1) && (Picked(s)[3] == 64 <==> |s| < 3)
  {
  }

  lemma ThreeLess(n: nat)
    requires n > 3
    ensures (n - 3) % 3 == n % 3
  {
  }

  /** The padding tells how full the last group is. */
  lemma {:induction false} Padding(s: seq<byte>)
    requires s != []
    ensures var t := Encoding(s);
            |t| >= 4 && (t[|t| - 1] == '=' <==> |s| % 3 != 0) && (t[|t| - 2] == '=' <==> |s| % 3 == 1)
    decreases |s|
  {
    assert Encoding([]) == "";
    hide Encoding, Text, Picked, Letter;
    EncodingStep(s);
    if |s| > 3 {
      Padding(Rest(s));
      ThreeLess(|s|);
      assert |Rest(s)| == |s| - 3;
      hide Rest;
      SameEnd(Text(Picked(s)), Encoding(Rest(s)));
    } else {
      assert Encoding(s) == Text(Picked(s));
      PickedPads(s);
      PadLetters(Picked(s));
      UpToThree(|s|);
    }
  }

  lemma UpToThree(n: nat)
    requires 1 <= n <= 3
    ensures (n % 3 != 0 <==> n < 3) && (n % 3 == 1 <==> n == 1)
  {
  }

  lemma SameEnd(a: string, b: string)
    requires |b| >= 2
    ensures var t := a + b; t[|t| - 1] == b[|b| - 1] && t[|t| - 2] == b[|b| - 2]
  {
  }

  lemma Unpadded(n: nat)
    ensures (n + 2) / 3 * 4 / 4 * 3 - (if n % 3 == 0 then 0 else if n % 3 == 1 then 2 else 1) == n
  {
    var k, r := n / 3, n % 3;
    assert n == 3 * k + r;
    assert (n + 2) / 3 == if r == 0 then k else k + 1;
  }

  lemma Fits(n: nat)
    requires n < SIZE_LIMIT
    ensures n % SIZE_LIMIT == n
  {
  }

  lemma PadsRemoved(t: string, n: nat)
    requires n < SIZE_LIMIT && |t| == (n + 2) / 3 * 4
    requires n > 0 ==> |t| >= 4 && (t[|t| - 1] == '=' <==> n % 3 != 0) && (t[|t| - 2] == '=' <==> n % 3 == 1)
    ensures DecodeLength(t) == n
  {
    Unpadded(n);
    Fits(n);
  }

  /** decodeLength of an encoding is the original size. */
  lemma DecodeLengthExact(s: seq<byte>)
    requires |s| < SIZE_LIMIT
    ensures DecodeLength(Encoding(s)) == |s|
  {
    hide DecodeLength, Encoding;
    EncodingSize(s);
    if s != [] { Padding(s); }
    PadsRemoved(Encoding(s), |s|);
  }

  // ---- the loops

  /** One round of the encoder: the next bytes, at most three, as four letters. */
  method EncodeGroup(input: seq<byte>, start: nat) returns (c: seq<nat>, pos: nat)
    requires start < |input|
    ensures start < pos <= |input| && |c| == 4 && c[0] <= 64 && c[1] <= 64 && c[2] <= 64 && c[3] <= 64
    ensures Encoding(input[start..]) == Text(c) + Encoding(input[pos..])
  {
    hide Text, Encoding;
    ghost var rest := input[start..];
    var inLen := |input| - start;
    pos := start;
    var c0, c1, c2, c3 := 0, 0, 64, 64;
    var i: int := input[pos] as int;
    c0 := i / 4;
    c1 := i % 4 * 16;
    inLen := inLen - 1;
    pos := pos + 1;
    if inLen > 0 {
      i := input[pos] as int;
      c1 := c1 + i / 16;
      c2 := i % 16 * 4;
      inLen := inLen - 1;
      pos := pos + 1;
      if inLen > 0 {
        i := input[pos] as int;
        c2 := c2 + i / 64;
        c3 := i % 64;
        inLen := inLen - 1;
        pos := pos + 1;
      }
    }
    c := [c0, c1, c2, c3];
    assert c == Picked(rest);
    hide Picked;
    EncodingStep(rest);
    assert input[pos..] == Rest(rest);
  }

  /** Base64_encode. With too little room it gives 0, except that room for a whole number of groups is filled and taken
      for success. */
  method Encode(out: array<char>, outLen: nat, input: seq<byte>) returns (ret: nat)
    requires outLen <= out.Length
    modifies out
    ensures ret == if |Encoding(input)| <= outLen then |Encoding(input)| else if outLen % 4 == 0 then outLen else 0
    ensures ret <= |Encoding(input)| && out[..ret] == Encoding(input)[..ret]
    ensures |Encoding(input)| < outLen ==> out[ret] == '\0'
  {
    hide Text, Letter, Encoding;
    ret := 0;
    var outCount: nat, pos: nat := 0, 0;
    ghost var all := Encoding(input);
    EncodingGroups(input);
    assert input[0..] == input;
    while pos < |input| && outCount < outLen
      invariant pos <= |input| && outCount % 4 == 0 && outCount < outLen + 4
      invariant outCount + |Encoding(input[pos..])| == |all|
      invariant outCount <= outLen ==> all == out[..outCount] + Encoding(input[pos..])
    {
      var c;
      c, pos := EncodeGroup(input, pos);
      var was := outCount;
      outCount := outCount + 4;
      if outCount <= outLen {
        WriteText(out, was, c);
      }
    }
    EncodingGroups(input[pos..]);
    if outCount <= outLen {
      if outCount < outLen {
        out[outCount] := '\0';
      }
      ret := outCount;
    }
    Returned(outCount, |all|, outLen);
  }

  lemma EncodingGroups(s: seq<byte>)
    ensures |Encoding(s)| % 4 == 0 && (s == [] <==> |Encoding(s)| == 0)
  {
    hide Encoding;
    EncodingSize(s);
    FourTimes((|s| + 2) / 3);
  }

  lemma FourTimes(k: nat)
    ensures k * 4 % 4 == 0
  {
  }

  lemma Returned(outCount: nat, total: nat, outLen: nat)
    requires outCount <= total && outCount % 4 == 0 && total % 4 == 0 && outCount < outLen + 4
    requires outCount >= outLen || outCount == total
    ensures (if outCount <= outLen then outCount else 0) ==
      if total <= outLen then total else if outLen % 4 == 0 then outLen else 0
  {
  }

  method WriteText(out: array<char>, at: nat, c: seq<nat>)
    requires at + 4 <= out.Length && |c| == 4 && c[0] <= 64 && c[1] <= 64 && c[2] <= 64 && c[3] <= 64
    modifies out
    ensures out[..at + 4] == old(out[..at]) + Text(c)
  {
    hide Letter;
    var i := 0;
    ghost var t := Text(c);
    while i < 4
      invariant i <= 4 && out[..at] == old(out[..at])
      invariant forall j :: 0 <= j < i ==> out[at + j] == t[j]
    {
      out[at + i] := Letter(c[i]);
      i := i + 1;
    }
  }

  /** One round of the decoder. A byte may be written past those that count. */
  method DecodeGroup(out: array<byte>, at: nat, outLen: nat, c0: nat, c1: nat, c2: nat, c3: nat)
    returns (outCount: nat, stop: bool)
    requires at < outLen <= out.Length && c0 <= NV && c1 <= NV && c2 <= NV && c3 <= NV
    modifies out
    ensures var b := Bytes(c0, c1, c2, c3);
            && outCount == (if |b| > outLen - at then outLen else at + |b|)
            && out[..outCount] == old(out[..at]) + b[..outCount - at]
            && (stop <==> |b| < 3 && outCount < outLen)
  {
    hide FirstByte;
    stop := false;
    out[at] := FirstByte(c0, c1);
    outCount := at + 1;
    if outCount < outLen {
      out[outCount] := c1 % 16 * 16;
      if c2 < NV {
        out[outCount] := c1 % 16 * 16 + c2 / 4;
        outCount := outCount + 1;
        if outCount < outLen {
          out[outCount] := c2 % 4 * 64;
          if c3 < NV {
            out[outCount] := c2 % 4 * 64 + c3;
            outCount := outCount + 1;
          } else {
            stop := true;
          }
        }
      } else {
        stop := true;
      }
    }
  }

  lemma DecodingGroup(t: string, room: nat)
    requires |t| > 3 && room > 0
    ensures var b := Bytes(Value(t[0]), Value(t[1]), Value(t[2]), Value(t[3]));
            Decoding(t, room) == if |b| > room then b[..room] else if |b| < 3 then b else b + Decoding(t[4..], room - 3)
  {
  }

  lemma DecodingEnd(t: string, room: nat)
    ensures |t| <= 3 || room == 0 ==> Decoding(t, room) == []
  {
  }

  /** Base64_decode. */
  method Decode(out: array<byte>, outLen: nat, input: string) returns (ret: nat)
    requires outLen <= out.Length
    modifies out
    ensures ret == |Decoding(input, outLen)| && out[..ret] == Decoding(input, outLen)
    ensures ret < outLen ==> out[ret] == 0
  {
    hide Value, Bytes, Decoding;
    var outCount: nat, pos: nat, inLen := 0, 0, |input|;
    ghost var all := Decoding(input, outLen);
    assert input[0..] == input;
    while inLen > 3 && outCount < outLen
      invariant pos <= |input| && outCount <= outLen
      invariant inLen == |input| - pos || inLen == 0
      invariant all == out[..outCount] +
        (if inLen == |input| - pos then Decoding(input[pos..], outLen - outCount) else [])
      decreases inLen
    {
      ghost var rest := input[pos..];
      var c0, c1, c2, c3 := Value(input[pos]), Value(input[pos + 1]), Value(input[pos + 2]), Value(input[pos + 3]);
      pos := pos + 4;
      inLen := inLen - 4;
      assert input[pos..] == rest[4..];
      var stop;
      DecodingGroup(rest, outLen - outCount);
      outCount, stop := DecodeGroup(out, outCount, outLen, c0, c1, c2, c3);
      DecodingEnd(input[pos..], outLen - outCount);
      if stop {
        inLen := 0;
      }
    }
    DecodingEnd(input[pos..], outLen - outCount);
    ret := outCount;
    if outCount < outLen {
      out[outCount] := 0;
    }
  }
}
