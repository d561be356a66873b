/** MQTT 5 property lists as MQTTProperties.c keeps them: an array grown ten entries at a time, a count and the
    serialized length. */
module Properties {
  import opened Codec
  import opened Writers

  const MQTT_INVALID_PROPERTY_ID := -2

  lemma {:induction false} ListBytesConcat(a: seq<Property>, b: seq<Property>)
    requires AllInRange(a) && AllInRange(b)
    ensures AllInRange(a + b) && ListBytes(a + b) == ListBytes(a) + ListBytes(b)
    decreases |a|
  {
    hide InRange, PropertyBytes;
    if a == [] {
      assert a + b == b && ListBytes(a) + ListBytes(b) == ListBytes(b);
    } else {
      assert (a + b)[1..] == a[1..] + b && (a + b)[0] == a[0];
      ListBytesConcat(a[1..], b);
      assert PropertyBytes(a[0]) + (ListBytes(a[1..]) + ListBytes(b)) ==
        (PropertyBytes(a[0]) + ListBytes(a[1..])) + ListBytes(b);
    }
  }

  lemma ListBytesAppend(a: seq<Property>, p: Property)
    requires AllInRange(a) && InRange(p)
    ensures AllInRange(a + [p]) && ListBytes(a + [p]) == ListBytes(a) + PropertyBytes(p)
  {
    ListBytesConcat(a, [p]);
    assert [p][1..] == [];
  }

  lemma PrefixBytes(ps: seq<Property>, i: nat)
    requires AllInRange(ps) && i < |ps|
    ensures ListBytes(ps[..i + 1]) == ListBytes(ps[..i]) + PropertyBytes(ps[i])
    ensures |ListBytes(ps[..i + 1])| <= |ListBytes(ps)|
  {
    hide InRange, PropertyBytes, ListBytes;
    assert ps[..i + 1] == ps[..i] + [ps[i]] && ps == ps[..i + 1] + ps[i + 1..];
    ListBytesAppend(ps[..i], ps[i]);
    ListBytesConcat(ps[..i + 1], ps[i + 1..]);
  }

  lemma KnownType(p: Property)
    requires InRange(p)
    ensures TypeOf(p.id) != TUnknown
  {
  }

  /** MQTTProperty_write. */
  method WriteProperty(buf: array<byte>, pos: nat, p: Property) returns (next: nat)
    requires InRange(p) && pos + |PropertyBytes(p)| <= buf.Length
    modifies buf
    ensures next == pos + |PropertyBytes(p)| && buf[..] == Put(old(buf[..]), pos, PropertyBytes(p))
  {
    var here := WriteChar(buf, pos, p.id);
    next := WriteValue(buf, here, p);
    PutPut(old(buf[..]), pos, [p.id], ValueBytes(p));
  }

  method WriteValue(buf: array<byte>, pos: nat, p: Property) returns (next: nat)
    requires InRange(p) && pos + |ValueBytes(p)| <= buf.Length
    modifies buf
    ensures next == pos + |ValueBytes(p)| && buf[..] == Put(old(buf[..]), pos, ValueBytes(p))
  {
    hide Put;
    match TypeOf(p.id) {
      case TByte => next := WriteChar(buf, pos, p.value.n);
      case TInt2 => next := WriteInt(buf, pos, p.value.n);
      case TInt4 => next := WriteInt4(buf, pos, p.value.n);
      case TVbi =>
        var rc := Encode(buf, pos, p.value.n);
        next := pos + rc;
      case TPair =>
        var mid := WriteLenString(buf, pos, p.value.name);
        next := WriteLenString(buf, mid, p.value.text);
        PutPut(old(buf[..]), pos, LenString(p.value.name), LenString(p.value.text));
      case TData => next := WriteLenString(buf, pos, p.value.data);
      case TString => next := WriteLenString(buf, pos, p.value.data);
    }
  }

  class PropertyList {
    var count: nat
    var maxCount: nat
    var length: nat
    var items: array?<Property>

    /** The array and its counts. */
    ghost predicate Formed()
      reads this, items
    {
      && (items == null ==> count == 0 && maxCount == 0)
      && (items != null ==> count <= maxCount == items.Length)
    }

    /** What MQTTProperties_add keeps: the length is that of the serialized properties. */
    ghost predicate Valid()
      reads this, items
    {
      Formed() && AllInRange(Items()) && length == |ListBytes(Items())|
    }

    ghost function Items(): seq<Property>
      reads this, items
    {
      if items == null || count > items.Length then [] else items[..count]
    }

    constructor ()
      ensures Valid() && Items() == [] && items == null
    {
      count, maxCount, length, items := 0, 0, 0, null;
    }

    /** Make room for one more entry. */
    method Grow()
      requires Formed()
      modifies this`items, this`maxCount
      ensures Formed() && Items() == old(Items()) && items != null && count < items.Length
      ensures items == old(items) || fresh(items)
    {
      if items == null {
        maxCount := 10;
        items := new Property[10](_ => Property(1, Num(0)));
      } else if count == maxCount {
        maxCount := maxCount + 10;
        var was, n := items, count;
        var now := new Property[maxCount](i requires 0 <= i reads was, this =>
          if i < n && i < was.Length then was[i] else Property(1, Num(0)));
        assert now[..n] == was[..n];
        items := now;
      }
    }

    /** MQTTProperties_add. The length counted is the length written. */
    method Add(p: Property) returns (rc: int)
      requires Valid() && (TypeOf(p.id) != TUnknown ==> InRange(p))
      modifies this, items
      ensures Valid() && (items == old(items) || fresh(items))
      ensures TypeOf(p.id) == TUnknown ==> rc == -2 && Items() == old(Items())
      ensures TypeOf(p.id) != TUnknown ==> rc == 0 && Items() == old(Items()) + [p]
    {
      if TypeOf(p.id) == TUnknown {
        return MQTT_INVALID_PROPERTY_ID;
      }
      Grow();
      ghost var was := Items();
      items[count] := p;
      count := count + 1;
      length := length + PropertyLen(p);
      PropertySize(p);
      ListBytesAppend(was, p);
      assert Items() == was + [p];
      rc := 0;
    }

    /** MQTTProperties_len is the size of what MQTTProperties_write writes. */
    method Len() returns (n: int)
      requires Valid() && length < VBI_LIMIT
      ensures n == |Block(Items())|
    {
      n := length + VbiLen(length);
      VbiSize(length);
    }

    /** MQTTProperties_write: the pointer advances by exactly MQTTProperties_len. */
    method Write(buf: array<byte>, pos: nat) returns (next: nat)
      requires Valid() && pos + |Block(Items())| <= buf.Length
      modifies buf
      ensures next == pos + |Block(Items())| && buf[..] == Put(old(buf[..]), pos, Block(Items()))
      ensures Valid() && Items() == old(Items())
    {
      hide Put, PropertyBytes, InRange, Vbi;
      var rc := Encode(buf, pos, length);
      next := pos + rc;
      ghost var all := Items();
      ghost var head := Vbi(length);
      var i: nat := 0;
      assert all[..0] == [] && head + [] == head;
      hide ListBytes;
      while i < count
        invariant i <= count && |ListBytes(all[..i])| <= |ListBytes(all)|
        invariant next == pos + |head + ListBytes(all[..i])|
        invariant buf[..] == Put(old(buf[..]), pos, head + ListBytes(all[..i]))
        modifies buf
      {
        PrefixBytes(all, i);
        PutPut(old(buf[..]), pos, head + ListBytes(all[..i]), PropertyBytes(all[i]));
        assert (head + ListBytes(all[..i])) + PropertyBytes(all[i]) == head + ListBytes(all[..i + 1]);
        next := WriteProperty(buf, next, items[i]);
        i := i + 1;
      }
      assert all[..count] == all;
    }

    /** MQTTProperties_copy: the same list, hence the same serialization. */
    method Copy() returns (result: PropertyList)
      requires Valid()
      ensures fresh(result) && result.Valid() && result.Items() == Items()
      ensures result.length == length
    {
      hide ListBytes, InRange;
      ghost var all := Items();
      result := new PropertyList();
      var i: nat := 0;
      while i < count
        invariant i <= count == |all| && Valid() && Items() == all
        invariant fresh(result) && (result.items == null || fresh(result.items))
        invariant result.Valid() && result.Items() == all[..i]
      {
        assert InRange(all[i]);
        assert all[..i + 1] == all[..i] + [all[i]];
        KnownType(all[i]);
        var rc := result.Add(items[i]);
        i := i + 1;
      }
      assert all[..count] == all;
    }

    /** MQTTProperties_read into an empty list, on data whose reading is defined. The list is freed on failure. */
    method Read(data: seq<byte>, pos: nat) returns (rc: int, next: nat)
      requires Formed() && items == null && length == 0 && pos <= |data| && !ReadProperties(data[pos..]).Overrun?
      modifies this
      ensures Formed() && (items == null || fresh(items))
      ensures match ReadProperties(data[pos..])
              case Ok(ps, rest) => rc == 1 && Items() == ps && next <= |data| && rest == data[next..] &&
                length == ReadVbi(data[pos..]).value
              case Bad => rc != 1 && Items() == [] && length == 0
              case Overrun => true
    {
      hide ReadVbi, ReadProperty;
      rc, next := 0, pos;
      if |data| - pos > 0 {
        var value, len := DecodeVbi(data, pos);
        next := pos + len;
        length := value;
        ghost var whole := ReadList(data[next..], value, []);
        var rem, ok := value, true;
        while rem > 0 && ok
          invariant Formed() && length == value && (items == null || fresh(items)) && next <= |data|
          invariant rem >= 0
          invariant if ok then ReadList(data[next..], rem, Items()) == whole else whole == Bad
          invariant !ok ==> rem > 0
          invariant whole.Overrun? ==> false
          decreases |data| - next, ok
        {
          Grow();
          match ReadProperty(data[next..])
          case Ok(p, rest) =>
            ghost var was := Items();
            items[count] := p;
            count := count + 1;
            assert Items() == was + [p];
            var proplen := |data[next..]| - |rest|;
            rem := (rem - proplen) % 0x1_0000_0000;  // unsigned
            RestIsSuffix(data[next..]);
            next := next + proplen;
          case Bad =>
            ok := false;
          case Overrun =>
            ok := false;
        }
        if rem == 0 {
          rc := 1;
        }
      }
      if rc != 1 {
        count, maxCount, length, items := 0, 0, 0, null;
      }
    }
  }

  /** A reader leaves a suffix of its buffer. */
  ghost predicate Suffix<T>(d: seq<byte>, r: Read<T>) {
    r.Ok? ==> |r.rest| <= |d| && r.rest == d[|d| - |r.rest|..]
  }

  lemma ValueSuffix(d: seq<byte>)
    ensures Suffix(d, ReadChar(d)) && Suffix(d, ReadInt(d)) && Suffix(d, ReadInt4(d)) && Suffix(d, ReadVbi(d))
    ensures Suffix(d, ReadLenString(d))
  {
    hide VbiDigits;
  }

  lemma SuffixOfSuffix(d: seq<byte>, e: seq<byte>, f: seq<byte>)
    requires |f| <= |e| <= |d| && e == d[|d| - |e|..] && f == e[|e| - |f|..]
    ensures f == d[|d| - |f|..]
  {
  }

  lemma PairSuffix(id: int, d: seq<byte>)
    ensures Suffix(d, ReadPair(id, d))
  {
    hide ReadLenString, ReadChar, ReadInt, ReadInt4, ReadVbi;
    ValueSuffix(d);
    var r := ReadLenString(d);
    if r.Ok? {
      ValueSuffix(r.rest);
      var q := ReadLenString(r.rest);
      if q.Ok? {
        SuffixOfSuffix(d, r.rest, q.rest);
      }
    }
  }

  lemma RestIsSuffix(d: seq<byte>)
    ensures Suffix(d, ReadProperty(d))
  {
    hide ReadChar, ReadInt, ReadInt4, ReadVbi, ReadLenString, ReadPair;
    if d != [] {
      ValueSuffix(d[1..]);
      PairSuffix(d[0] as int, d[1..]);
    }
  }

  function DigitValue(c: byte, multiplier: nat): nat {
    (c as int % 128) * multiplier
  }

  ghost function Scaled(value: int, multiplier: int, rest: int): int {
    value + multiplier * rest
  }

  lemma ScaledDigit(value: int, multiplier: int, digit: int, rest: int)
    ensures Scaled(value, multiplier, digit + 128 * rest) == Scaled(value + digit * multiplier, multiplier * 128, rest)
    ensures Scaled(value, multiplier, digit) == value + digit * multiplier
  {
  }

  /** One byte of the decoding loop. */
  lemma DigitStep(d: seq<byte>, i: nat, value: int, multiplier: nat)
    requires i < 4 && VbiDigits(d, i).Digits?
    ensures i < |d|
    ensures var v := value + DigitValue(d[i], multiplier);
            var all := Digits(Scaled(value, multiplier, VbiDigits(d, i).value), VbiDigits(d, i).len);
            if d[i] < 128 then all == Digits(v, i + 1)
            else VbiDigits(d, i + 1).Digits? &&
                 all == Digits(Scaled(v, multiplier * 128, VbiDigits(d, i + 1).value), VbiDigits(d, i + 1).len)
  {
    hide Scaled;
    ScaledDigit(value, multiplier, d[i] as int % 128, if d[i] < 128 then 0 else VbiDigits(d, i + 1).value);
  }

  lemma DigitsRead(d: seq<byte>, value: int, len: nat)
    requires VbiDigits(d, 0) == Digits(value, len) && !ReadVbi(d).Overrun?
    ensures len <= |d| && ReadVbi(d) == Ok(value, d[len..])
  {
  }

  /** MQTTPacket_decodeBuf; the pointer then advances by `len`. */
  method DecodeVbi(data: seq<byte>, pos: nat) returns (value: nat, len: nat)
    requires pos < |data| && !ReadVbi(data[pos..]).Overrun?
    ensures pos + len <= |data| && ReadVbi(data[pos..]) == Ok(value, data[pos + len..])
  {
    ghost var d := data[pos..];
    ghost var all := VbiDigits(d, 0);
    ScaledDigit(0, 1, all.value, 0);
    hide VbiDigits, ReadVbi, Scaled, DigitValue;
    var multiplier: nat := 1;
    var more := true;
    value, len := 0, 0;
    while more
      invariant len <= 5 && multiplier >= 1
      invariant more ==> len <= 4 && VbiDigits(d, len).Digits?
      invariant more ==> all == Digits(Scaled(value, multiplier, VbiDigits(d, len).value), VbiDigits(d, len).len)
      invariant !more ==> all == Digits(value, len)
      decreases 5 - len, more
    {
      len := len + 1;
      if len > 4 {
        PastLast(d, value, multiplier);
        more := false;
      } else {
        DigitStep(d, len - 1, value, multiplier);
        var c := data[pos + len - 1];
        assert d[len - 1] == c;
        value := value + DigitValue(c, multiplier);
        multiplier := multiplier * 128;
        more := c >= 128;
      }
    }
    DigitsRead(d, value, len);
    assert d[len..] == data[pos + len..];
  }

  lemma PastLast(d: seq<byte>, value: int, multiplier: int)
    ensures Digits(Scaled(value, multiplier, VbiDigits(d, 4).value), VbiDigits(d, 4).len) == Digits(value, 5)
  {
  }
}
