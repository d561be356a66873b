/** The wire format of MQTTPacket.c and MQTTProperties.c, on values: what the writers produce and what the
    readers make of a buffer. */
module Codec {

  type byte = x: int | 0 <= x < 256

  /** What a reader returns: the value and what is left of the buffer; an error it detects; or a read past the
      end of the buffer, which the source does not check and does not define. */
  datatype Read<+T> = Ok(value: T, rest: seq<byte>) | Bad | Overrun

  // ---- fixed-size integers

  function Int2(n: int): seq<byte>
    requires 0 <= n < 65536
  {
    [n / 256, n % 256]
  }

  function Int4(n: int): seq<byte>
    requires 0 <= n < 0x1_0000_0000
  {
    [n / 16777216, n % 16777216 / 65536, n % 65536 / 256, n % 256]
  }

  function ReadChar(d: seq<byte>): Read<int> {
    if |d| < 1 then Overrun else Ok(d[0], d[1..])
  }

  function ReadInt(d: seq<byte>): Read<int> {
    if |d| < 2 then Overrun else Ok(256 * (d[0] as int) + d[1] as int, d[2..])
  }

  function ReadInt4(d: seq<byte>): Read<int> {
    if |d| < 4 then Overrun
    else Ok(16777216 * (d[0] as int) + 65536 * (d[1] as int) + 256 * (d[2] as int) + d[3] as int, d[4..])
  }

  /** Several buffers, handed to the socket or the store one after the other. */
  ghost function Concat(bufs: seq<seq<byte>>): seq<byte> {
    if bufs == [] then [] else Concat(bufs[..|bufs| - 1]) + bufs[|bufs| - 1]
  }

  // ---- variable byte integers (section 1.5.5 of MQTT 5.0)

  const VBI_LIMIT := 0x1000_0000

  function Vbi(n: nat): (b: seq<byte>)
    ensures |b| >= 1
  {
    if n < 128 then [n] else [n % 128 + 128] + Vbi(n / 128)
  }

  /** MQTTPacket_VBIlen. */
  function VbiLen(n: int): int {
    if n < 128 then 1 else if n < 16384 then 2 else if n < 2097152 then 3 else 4
  }

  /** The value of the digits from the i-th on, and how many bytes MQTTPacket_decodeBuf says it has read: five when
      the fourth byte still announces another. None when it reads past the end. */
  datatype Digits = Digits(value: int, len: nat) | NoDigits

  function VbiDigits(d: seq<byte>, i: nat): (r: Digits)
    requires i <= 4
    ensures r.Digits? ==> i < r.len <= 5 && (r.len <= 4 ==> r.len <= |d|)
    decreases 4 - i
  {
    if i == 4 then Digits(0, 5)
    else if i >= |d| then NoDigits
    else if d[i] < 128 then Digits(d[i], i + 1)
    else
      var r := VbiDigits(d, i + 1);
      if r.NoDigits? then NoDigits else Digits(d[i] % 128 + 128 * r.value, r.len)
  }

  function ReadVbi(d: seq<byte>): Read<int> {
    var r := VbiDigits(d, 0);
    if r.NoDigits? || r.len > |d| then Overrun else Ok(r.value, d[r.len..])
  }

  lemma VbiSize(n: nat)
    requires n < VBI_LIMIT
    ensures |Vbi(n)| == VbiLen(n)
  {
    if n >= 128 {
      assert |Vbi(n)| == 1 + |Vbi(n / 128)|;
      if n / 128 >= 128 {
        assert |Vbi(n / 128)| == 1 + |Vbi(n / 128 / 128)|;
        if n / 128 / 128 >= 128 {
          assert |Vbi(n / 128 / 128)| == 1 + |Vbi(n / 128 / 128 / 128)|;
        }
      }
    }
  }

  /** The digits, spelled out: the low seven bits first, 128 added to all but the last. */
  lemma VbiForm(n: nat)
    requires n < 0x1000_0000
    ensures var a, b, c := n / 128, n / 16384, n / 2097152;
            Vbi(n) == if n < 128 then [n] else if n < 16384 then [n % 128 + 128, a]
                      else if n < 2097152 then [n % 128 + 128, a % 128 + 128, b]
                      else [n % 128 + 128, a % 128 + 128, b % 128 + 128, c]
  {
    SevenBits(n, n / 128, n / 128 / 128, n / 128 / 128 / 128);
    FourDigits(n, n / 128, n / 16384, n / 2097152);
  }

  lemma FourDigits(n: nat, a: nat, b: nat, c: nat)
    requires a == n / 128 && b == a / 128 && c == b / 128 && c < 128
    ensures Vbi(n) == if n < 128 then [n] else if a < 128 then [n % 128 + 128, a]
                      else if b < 128 then [n % 128 + 128, a % 128 + 128, b]
                      else [n % 128 + 128, a % 128 + 128, b % 128 + 128, c]
  {
    hide Vbi;
    DigitStep(n);
    if n >= 128 {
      DigitStep(a);
      if a >= 128 {
        DigitStep(b);
        if b >= 128 { DigitStep(c); }
      }
    }
  }

  lemma DigitStep(n: nat)
    ensures Vbi(n) == if n < 128 then [n] else [n % 128 + 128] + Vbi(n / 128)
  {
  }

  lemma SevenBits(n: nat, a: nat, b: nat, c: nat)
    requires a == n / 128 && b == a / 128 && c == b / 128
    ensures b == n / 16384 && c == n / 2097152
    ensures (n < 16384 <==> a < 128) && (n < 2097152 <==> b < 128) && (n < 0x1000_0000 <==> c < 128)
  {
    assert n == 128 * a + n % 128 && a == 128 * b + a % 128 && b == 128 * c + b % 128;
  }

  ghost function Pow128(k: nat): nat {
    if k == 0 then 1 else 128 * Pow128(k - 1)
  }

  lemma {:induction false} VbiDigitsOf(p: seq<byte>, n: nat, r: seq<byte>)
    requires |p| < 4 && n < Pow128(4 - |p|)
    ensures VbiDigits(p + Vbi(n) + r, |p|) == Digits(n, |p| + |Vbi(n)|)
    decreases n
  {
    var d := p + Vbi(n) + r;
    if n < 128 {
      assert d[|p|] == n;
    } else {
      var q := p + [n % 128 + 128];
      assert d[|p|] == n % 128 + 128;
      assert Pow128(4 - |p|) == 128 * Pow128(3 - |p|);
      assert n / 128 < Pow128(3 - |p|);
      assert Pow128(0) == 1;
      assert |p| < 3;
      assert d == q + Vbi(n / 128) + r;
      VbiDigitsOf(q, n / 128, r);
    }
  }

  /** Decoding undoes encoding, and consumes exactly what was written. */
  lemma VbiRoundTrip(n: nat, r: seq<byte>)
    requires n < VBI_LIMIT
    ensures ReadVbi(Vbi(n) + r) == Ok(n, r) && |Vbi(n)| == VbiLen(n)
  {
    assert Pow128(4) == 128 * (128 * (128 * 128));
    assert [] + Vbi(n) + r == Vbi(n) + r;
    VbiDigitsOf([], n, r);
    VbiSize(n);
    assert (Vbi(n) + r)[|Vbi(n)|..] == r;
  }

  // ---- length-delimited data

  function LenString(s: seq<byte>): seq<byte>
    requires |s| < 65536
  {
    Int2(|s|) + s
  }

  /** MQTTLenStringRead and readUTFlen. */
  function ReadLenString(d: seq<byte>): Read<seq<byte>> {
    if |d| <= 1 then Bad
    else
      var len := 256 * (d[0] as int) + d[1] as int;
      if 2 + len <= |d| then Ok(d[2..2 + len], d[2 + len..]) else Bad
  }

  lemma IntRoundTrips(n: int, r: seq<byte>)
    ensures 0 <= n < 65536 ==> ReadInt(Int2(n) + r) == Ok(n, r)
    ensures 0 <= n < 0x1_0000_0000 ==> ReadInt4(Int4(n) + r) == Ok(n, r)
  {
    if 0 <= n < 65536 { assert (Int2(n) + r)[2..] == r; }
    if 0 <= n < 0x1_0000_0000 {
      assert (Int4(n) + r)[4..] == r;
      FourBytes(n);
    }
  }

  lemma FourBytes(n: int)
    requires 0 <= n < 0x1_0000_0000
    ensures n == 16777216 * (n / 16777216) + 65536 * (n % 16777216 / 65536) + 256 * (n % 65536 / 256) + n % 256
  {
    var a, m := n / 16777216, n % 16777216;
    var b, k := m / 65536, m % 65536;
    Mod65536(n, 256 * a + b, k);
    Mod256(n, 65536 * a + 256 * b + k / 256, k % 256);
  }

  lemma Mod65536(x: int, q: int, r: int)
    requires x == 65536 * q + r && 0 <= r < 65536
    ensures x % 65536 == r
  {
  }

  lemma Mod256(x: int, q: int, r: int)
    requires x == 256 * q + r && 0 <= r < 256
    ensures x % 256 == r
  {
  }

  lemma LenStringRoundTrip(s: seq<byte>, r: seq<byte>)
    requires |s| < 65536
    ensures ReadLenString(LenString(s) + r) == Ok(s, r)
  {
    var d := LenString(s) + r;
    assert d[0] == |s| / 256 && d[1] == |s| % 256;
    assert d[2..2 + |s|] == s && d[2 + |s|..] == r;
  }

  // ---- properties (section 2.2.2 of MQTT 5.0)

  datatype Type = TByte | TInt2 | TInt4 | TVbi | TData | TString | TPair | TUnknown

  /** MQTTProperty_getType. */
  function TypeOf(id: int): Type {
    if id in {1, 23, 25, 36, 37, 40, 41, 42} then TByte
    else if id in {19, 33, 34, 35} then TInt2
    else if id in {2, 17, 24, 39} then TInt4
    else if id == 11 then TVbi
    else if id in {9, 22} then TData
    else if id in {3, 8, 18, 21, 26, 28, 31} then TString
    else if id == 38 then TPair
    else TUnknown
  }

  datatype Value = Num(n: int) | Str(data: seq<byte>) | Pair(name: seq<byte>, text: seq<byte>)
  datatype Property = Property(id: int, value: Value)

  /** The value is of the kind its identifier calls for, and in range. */
  predicate InRange(p: Property) {
    match TypeOf(p.id)
    case TByte => p.value.Num? && 0 <= p.value.n < 256
    case TInt2 => p.value.Num? && 0 <= p.value.n < 65536
    case TInt4 => p.value.Num? && 0 <= p.value.n < 0x1_0000_0000
    case TVbi => p.value.Num? && 0 <= p.value.n < VBI_LIMIT
    case TData => p.value.Str? && |p.value.data| < 65536
    case TString => p.value.Str? && |p.value.data| < 65536
    case TPair => p.value.Pair? && |p.value.name| < 65536 && |p.value.text| < 65536
    case TUnknown => false
  }

  function ValueBytes(p: Property): seq<byte>
    requires InRange(p)
  {
    match TypeOf(p.id)
    case TByte => [p.value.n]
    case TInt2 => Int2(p.value.n)
    case TInt4 => Int4(p.value.n)
    case TVbi => Vbi(p.value.n)
    case TPair => LenString(p.value.name) + LenString(p.value.text)
    case TData => LenString(p.value.data)
    case TString => LenString(p.value.data)
  }

  function PropertyBytes(p: Property): seq<byte>
    requires InRange(p)
  {
    [p.id] + ValueBytes(p)
  }

  /** The length MQTTProperties_add counts for a property. */
  function PropertyLen(p: Property): int
    requires InRange(p)
  {
    1 + match TypeOf(p.id)
        case TByte => 1
        case TInt2 => 2
        case TInt4 => 4
        case TVbi => VbiLen(p.value.n)
        case TPair => 2 + |p.value.name| + (2 + |p.value.text|)
        case TData => 2 + |p.value.data|
        case TString => 2 + |p.value.data|
  }

  function Map(r: Read<int>, id: int): Read<Property> {
    match r
    case Ok(n, rest) => Ok(Property(id, Num(n)), rest)
    case Bad => Bad
    case Overrun => Overrun
  }

  function ReadStr(id: int, d: seq<byte>): Read<Property> {
    match ReadLenString(d)
    case Ok(s, rest) => Ok(Property(id, Str(s)), rest)
    case Bad => Bad
    case Overrun => Overrun
  }

  function ReadPair(id: int, d: seq<byte>): Read<Property> {
    match ReadLenString(d)
    case Bad => Bad
    case Overrun => Overrun
    case Ok(name, rest) =>
      match ReadLenString(rest)
      case Ok(text, rest') => Ok(Property(id, Pair(name, text)), rest')
      case Bad => Bad
      case Overrun => Overrun
  }

  /** MQTTProperty_read. */
  function ReadProperty(d: seq<byte>): (r: Read<Property>)
    ensures r.Ok? ==> |r.rest| < |d|
  {
    if d == [] then Overrun
    else
      var id: int, v := d[0] as int, d[1..];
      match TypeOf(id)
      case TByte => Map(ReadChar(v), id)
      case TInt2 => Map(ReadInt(v), id)
      case TInt4 => Map(ReadInt4(v), id)
      case TVbi => Map(ReadVbi(v), id)
      case TData => ReadStr(id, v)
      case TString => ReadStr(id, v)
      case TPair => ReadPair(id, v)
      case TUnknown => Bad
  }

  /** The loop of MQTTProperties_read; `rem` is an unsigned 32-bit count of bytes still to come. */
  function ReadList(d: seq<byte>, rem: nat, sofar: seq<Property>): Read<seq<Property>>
    decreases |d|
  {
    if rem == 0 then Ok(sofar, d)
    else
      match ReadProperty(d)
      case Ok(p, rest) => ReadList(rest, (rem - (|d| - |rest|)) % 0x1_0000_0000, sofar + [p])
      case Bad => Bad
      case Overrun => Overrun
  }

  /** MQTTProperties_read. */
  function ReadProperties(d: seq<byte>): Read<seq<Property>> {
    if d == [] then Bad
    else
      match ReadVbi(d)
      case Ok(n, rest) => if n < 0 then Bad else ReadList(rest, n, [])
      case Bad => Bad
      case Overrun => Overrun
  }

  predicate AllInRange(ps: seq<Property>) {
    forall i :: 0 <= i < |ps| ==> InRange(ps[i])
  }

  function ListBytes(ps: seq<Property>): seq<byte>
    requires AllInRange(ps)
  {
    if ps == [] then [] else PropertyBytes(ps[0]) + ListBytes(ps[1..])
  }

  /** A property list as it goes on the wire: its length, then the properties. */
  function Block(ps: seq<Property>): seq<byte>
    requires AllInRange(ps)
  {
    Vbi(|ListBytes(ps)|) + ListBytes(ps)
  }

  /** Section 2.2.2.2 of MQTT 5.0: the bytes of a property, identifier by identifier. */
  lemma PropertyForm(p: Property)
    requires InRange(p)
    ensures var id, b := p.id, PropertyBytes(p);
            match p.value
            case Num(n) =>
              || (id in {1, 23, 25, 36, 37, 40, 41, 42} && 0 <= n < 256 && b == [id, n])
              || (id in {19, 33, 34, 35} && 0 <= n < 65536 && b == [id, n / 256, n % 256])
              || (id in {2, 17, 24, 39} && 0 <= n < 0x1_0000_0000 &&
                  b == [id, n / 16777216, n / 65536 % 256, n / 256 % 256, n % 256])
              || (id == 11 && 0 <= n < 0x1000_0000 && b == [id] + Vbi(n))  // see VbiForm
            case Str(d) =>
              id in {3, 8, 9, 18, 21, 22, 26, 28, 31} && |d| < 65536 && b == [id, |d| / 256, |d| % 256] + d
            case Pair(x, y) =>
              id == 38 && |x| < 65536 && |y| < 65536 &&
              b == [id, |x| / 256, |x| % 256] + x + ([|y| / 256, |y| % 256] + y)
  {
    hide TypeOf, InRange, PropertyBytes;
    match p.value
    case Num(_) => NumberForm(p);
    case Str(_) => StringForm(p);
    case Pair(_, _) => PairForm(p);
  }

  lemma NumberForm(p: Property)
    requires InRange(p) && p.value.Num?
    ensures var id, n, b := p.id, p.value.n, PropertyBytes(p);
            || (id in {1, 23, 25, 36, 37, 40, 41, 42} && 0 <= n < 256 && b == [id, n])
            || (id in {19, 33, 34, 35} && 0 <= n < 65536 && b == [id, n / 256, n % 256])
            || (id in {2, 17, 24, 39} && 0 <= n < 0x1_0000_0000 &&
                b == [id, n / 16777216, n / 65536 % 256, n / 256 % 256, n % 256])
            || (id == 11 && 0 <= n < 0x1000_0000 && b == [id] + Vbi(n))
  {
    hide Vbi, Int4;
    if p.id in {2, 17, 24, 39} { Int4Form(p.value.n); }
  }

  lemma StringForm(p: Property)
    requires InRange(p) && p.value.Str?
    ensures var id, d, b := p.id, p.value.data, PropertyBytes(p);
            id in {3, 8, 9, 18, 21, 22, 26, 28, 31} && |d| < 65536 && b == [id, |d| / 256, |d| % 256] + d
  {
    hide Vbi, Int4;
    var d := p.value.data;
    assert PropertyBytes(p) == [p.id] + ([|d| / 256, |d| % 256] + d);
  }

  lemma PairForm(p: Property)
    requires InRange(p) && p.value.Pair?
    ensures var id, x, y, b := p.id, p.value.name, p.value.text, PropertyBytes(p);
            id == 38 && |x| < 65536 && |y| < 65536 &&
            b == [id, |x| / 256, |x| % 256] + x + ([|y| / 256, |y| % 256] + y)
  {
    hide Vbi, Int4;
    var x, y := p.value.name, p.value.text;
    assert PropertyBytes(p) == [p.id] + (([|x| / 256, |x| % 256] + x) + ([|y| / 256, |y| % 256] + y));
  }

  lemma Int4Form(n: int)
    requires 0 <= n < 0x1_0000_0000
    ensures Int4(n) == [n / 16777216, n / 65536 % 256, n / 256 % 256, n % 256]
  {
    var a, r := n / 16777216, n % 16777216;
    var b, q := r / 65536, r % 65536;
    assert n == 16777216 * a + 65536 * b + q;
    assert n / 65536 == 256 * a + b;
    assert n % 65536 == q;
    assert n / 256 == 65536 * a + 256 * b + q / 256;
    assert n / 256 % 256 == q / 256;
  }

  lemma PropertySize(p: Property)
    requires InRange(p)
    ensures |PropertyBytes(p)| == PropertyLen(p) >= 2
  {
    if TypeOf(p.id) == TVbi { VbiSize(p.value.n); }
  }

  lemma PropertyRoundTrip(p: Property, r: seq<byte>)
    requires InRange(p)
    ensures ReadProperty(PropertyBytes(p) + r) == Ok(p, r)
  {
    hide ReadInt, ReadInt4, ReadVbi, ReadLenString, LenString, Int2, Int4, Vbi;
    var d, v := PropertyBytes(p) + r, ValueBytes(p) + r;
    assert d[0] == p.id && d[1..] == v;
    match TypeOf(p.id) {
      case TByte => assert v[1..] == r;
      case TInt2 => IntRoundTrips(p.value.n, r);
      case TInt4 => IntRoundTrips(p.value.n, r);
      case TVbi => VbiRoundTrip(p.value.n, r);
      case TPair =>
        assert v == LenString(p.value.name) + (LenString(p.value.text) + r);
        LenStringRoundTrip(p.value.name, LenString(p.value.text) + r);
        LenStringRoundTrip(p.value.text, r);
      case TData => LenStringRoundTrip(p.value.data, r);
      case TString => LenStringRoundTrip(p.value.data, r);
    }
  }

  lemma ReadListStep(d: seq<byte>, rem: nat, sofar: seq<Property>, p: Property, rest: seq<byte>)
    requires ReadProperty(d) == Ok(p, rest) && |d| - |rest| <= rem < 0x1_0000_0000 && rem > 0
    ensures ReadList(d, rem, sofar) == ReadList(rest, rem - (|d| - |rest|), sofar + [p])
  {
    hide ReadProperty;
    assert (rem - (|d| - |rest|)) % 0x1_0000_0000 == rem - (|d| - |rest|);
  }

  lemma {:induction false} ListRoundTrip(ps: seq<Property>, r: seq<byte>, sofar: seq<Property>)
    requires AllInRange(ps) && |ListBytes(ps)| < VBI_LIMIT
    ensures ReadList(ListBytes(ps) + r, |ListBytes(ps)|, sofar) == Ok(sofar + ps, r)
    decreases |ps|
  {
    hide ReadProperty, PropertyBytes, InRange;
    if ps == [] {
      assert ListBytes(ps) + r == r && sofar + ps == sofar;
    } else {
      var tail := ListBytes(ps[1..]) + r;
      var d := ListBytes(ps) + r;
      assert d == PropertyBytes(ps[0]) + tail;
      PropertyRoundTrip(ps[0], tail);
      PropertySize(ps[0]);
      hide ReadList;
      ReadListStep(d, |ListBytes(ps)|, sofar, ps[0], tail);
      ListRoundTrip(ps[1..], r, sofar + [ps[0]]);
      assert sofar + [ps[0]] + ps[1..] == sofar + ps;
    }
  }

  /** Reading gives back the list that was written, and stops exactly at its end. */
  lemma PropertiesRoundTrip(ps: seq<Property>, r: seq<byte>)
    requires AllInRange(ps) && |ListBytes(ps)| < VBI_LIMIT
    ensures ReadProperties(Block(ps) + r) == Ok(ps, r)
  {
    var n := |ListBytes(ps)|;
    assert Block(ps) + r == Vbi(n) + (ListBytes(ps) + r);
    VbiRoundTrip(n, ListBytes(ps) + r);
    ListRoundTrip(ps, r, []);
    assert [] + ps == ps;
  }

  // ---- what is accepted

  lemma {:induction false} DigitsBound(d: seq<byte>, i: nat)
    requires i <= 4
    ensures var r := VbiDigits(d, i); r.Digits? ==> 0 <= r.value < Pow128(4 - i)
    decreases 4 - i
  {
    if i < 4 {
      DigitsBound(d, i + 1);
      assert Pow128(4 - i) == 128 * Pow128(3 - i);
      assert Pow128(0) == 1;
    }
  }

  lemma VbiBound(d: seq<byte>)
    ensures var r := ReadVbi(d); r.Ok? ==> 0 <= r.value < VBI_LIMIT && |r.rest| <= |d|
  {
    DigitsBound(d, 0);
    assert Pow128(4) == 128 * (128 * (128 * 128));
  }

  lemma FieldBounds(d: seq<byte>)
    ensures var r := ReadChar(d); r.Ok? ==> 0 <= r.value < 256
    ensures var r := ReadInt(d); r.Ok? ==> 0 <= r.value < 65536
    ensures var r := ReadInt4(d); r.Ok? ==> 0 <= r.value < 0x1_0000_0000
    ensures var r := ReadLenString(d); r.Ok? ==> |r.value| < 65536
  {
  }

  lemma ReadInRange(d: seq<byte>)
    ensures var r := ReadProperty(d); r.Ok? ==> InRange(r.value)
  {
    hide ReadVbi, ReadChar, ReadInt, ReadInt4, ReadLenString;
    if d != [] {
      VbiBound(d[1..]);
      FieldBounds(d[1..]);
      if ReadLenString(d[1..]).Ok? { FieldBounds(ReadLenString(d[1..]).rest); }
    }
  }

  lemma {:induction false} ListAccepted(d: seq<byte>, rem: nat, sofar: seq<Property>)
    requires |d| < 0x1_0000_0000 && rem < 0x1_0000_0000 && AllInRange(sofar)
    ensures var r := ReadList(d, rem, sofar); r.Ok? ==> |d| - |r.rest| == rem && AllInRange(r.value)
    decreases |d|
  {
    hide ReadProperty, InRange;
    if rem > 0 {
      var p := ReadProperty(d);
      if p.Ok? {
        ReadInRange(d);
        ListAccepted(p.rest, (rem - (|d| - |p.rest|)) % 0x1_0000_0000, sofar + [p.value]);
      }
    }
  }

  /** A list is accepted only if its properties are in range and take exactly the length that stands before them,
      although the count of bytes to come is unsigned and wraps around. */
  lemma AcceptedExactly(d: seq<byte>)
    requires |d| < 0x1_0000_0000
    ensures var r := ReadProperties(d);
            r.Ok? ==> AllInRange(r.value) && ReadVbi(d).Ok? && |ReadVbi(d).rest| - |r.rest| == ReadVbi(d).value
  {
    VbiBound(d);
    hide ReadVbi, ReadList;
    var v := ReadVbi(d);
    if d != [] && v.Ok? { ListAccepted(v.rest, v.value, []); }
  }
}
