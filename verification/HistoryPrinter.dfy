/** The history printer of the pump server: the row loop of db_get_history_filtered (src/db.c) and the handler that
    calls it (src/http_api.c). */
module HistoryPrinter {

  // ---- decimals, as %d and %lld print them

  const DIGITS := "0123456789"

  function Decimal(n: nat): (s: string)
    ensures |s| >= 1
  {
    if n < 10 then [DIGITS[n]] else Decimal(n / 10) + [DIGITS[n % 10]]
  }

  function Dec(n: int): string {
    if n < 0 then "-" + Decimal(-n) else Decimal(n)
  }

  predicate IsDigit(c: char) {
    '0' <= c <= '9'
  }

  /** No NUL in it. */
  ghost predicate Plain(s: string) {
    forall i :: 0 <= i < |s| ==> s[i] != '\0'
  }

  function ReadDigits(s: string, sofar: nat): (r: (nat, string))
    ensures |r.1| <= |s|
  {
    if s != "" && IsDigit(s[0]) then ReadDigits(s[1..], sofar * 10 + (s[0] as int - '0' as int)) else (sofar, s)
  }

  datatype Read<T> = Ok(value: T, rest: string) | NotThere

  function ReadInt(s: string): (r: Read<int>)
    ensures r.Ok? ==> |r.rest| <= |s|
  {
    if s != "" && s[0] == '-' then
      var r := ReadDigits(s[1..], 0);
      Ok(-(r.0 as int), r.1)
    else
      var r := ReadDigits(s, 0);
      Ok(r.0, r.1)
  }

  lemma {:induction false} DecimalShape(n: nat, k: nat)
    ensures Plain(Decimal(n)) && IsDigit(Decimal(n)[0])
    ensures k >= 1 && n < Pow10(k) ==> |Decimal(n)| <= k
    decreases n
  {
    if n >= 10 {
      if k >= 1 && n < Pow10(k) { assert k > 1 && n / 10 < Pow10(k - 1); }
      DecimalShape(n / 10, if k > 0 then k - 1 else 0);
    }
  }

  function Pow10(k: nat): nat {
    if k == 0 then 1 else 10 * Pow10(k - 1)
  }

  lemma {:induction false} DigitsRoundTrip(n: nat, r: string)
    ensures ReadDigits(Decimal(n) + r, 0) == ReadDigits(r, n)
    decreases n
  {
    var last := [DIGITS[n % 10]];
    assert (last + r)[1..] == r;
    if n < 10 {
      assert Decimal(n) == last;
    } else {
      assert Decimal(n) + r == Decimal(n / 10) + (last + r);
      DigitsRoundTrip(n / 10, last + r);
    }
  }

  lemma DigitsEnd(n: nat, r: string)
    requires r != "" ==> !IsDigit(r[0])
    ensures ReadDigits(r, n) == (n, r)
  {
  }

  lemma DecRoundTrip(n: int, r: string)
    requires r != "" ==> !IsDigit(r[0])
    ensures ReadInt(Dec(n) + r) == Ok(n, r)
  {
    hide ReadDigits, Decimal, Plain;
    var m: nat := if n < 0 then -n else n;
    DigitsEnd(m, r);
    DigitsRoundTrip(m, r);
    DecimalShape(m, 0);
    if n < 0 {
      assert (Dec(n) + r)[1..] == Decimal(m) + r;
    } else {
      assert (Dec(n) + r)[0] == Decimal(m)[0];
    }
  }

  lemma DecLength(n: int)
    ensures Plain(Dec(n))
    ensures -0x8000_0000 <= n < 0x8000_0000 ==> |Dec(n)| <= 11
    ensures -0x8000_0000_0000_0000 <= n < 0x8000_0000_0000_0000 ==> |Dec(n)| <= 20
  {
    var m: nat := if n < 0 then -n else n;
    Powers();
    hide Pow10;
    DecimalShape(m, 10);
    DecimalShape(m, 19);
  }

  lemma Powers()
    ensures Pow10(10) == 10_000_000_000 && Pow10(19) == 10_000_000_000_000_000_000
  {
    assert Pow10(5) == 100_000;
    assert Pow10(10) == 100_000 * Pow10(5);
    assert Pow10(15) == 100_000 * Pow10(10);
  }

  // ---- rows

  datatype Row = Row(pump1: int, pump1Status: int, pump2: int, pump2Status: int, busy: int, alarm: int, timestamp: int)

  /** sqlite3_column_int gives 32 bits, sqlite3_column_int64 gives 64. */
  ghost predicate Columns(r: Row) {
    && (forall i :: 0 <= i < 6 ==> -0x8000_0000 <= Values(r)[i] < 0x8000_0000)
    && -0x8000_0000_0000_0000 <= r.timestamp < 0x8000_0000_0000_0000
  }

  function Values(r: Row): seq<int> {
    [r.pump1, r.pump1Status, r.pump2, r.pump2Status, r.busy, r.alarm, r.timestamp]
  }

  const LABELS: seq<string> := [
    "{\"pump1\":", ",\"pump1_status\":", ",\"pump2\":", ",\"pump2_status\":", ",\"busy\":", ",\"alarm\":",
    ",\"timestamp\":"]

  ghost predicate Separators(labels: seq<string>) {
    forall i :: 0 <= i < |labels| ==> labels[i] != "" && !IsDigit(labels[i][0]) && Plain(labels[i])
  }

  function Fields(labels: seq<string>, values: seq<int>): string
    requires |labels| == |values|
  {
    if labels == [] then "" else labels[0] + Dec(values[0]) + Fields(labels[1..], values[1..])
  }

  function ReadFields(labels: seq<string>, s: string): (r: Read<seq<int>>)
    ensures r.Ok? ==> |r.rest| <= |s|
    decreases |labels|
  {
    if labels == [] then Ok([], s)
    else if !(labels[0] <= s) then NotThere
    else
      match ReadInt(s[|labels[0]|..])
      case NotThere => NotThere
      case Ok(v, rest) =>
        match ReadFields(labels[1..], rest)
        case NotThere => NotThere
        case Ok(vs, rest') => Ok([v] + vs, rest')
  }

  lemma {:induction false} FieldsRoundTrip(labels: seq<string>, values: seq<int>, r: string)
    requires |labels| == |values| && Separators(labels) && r != "" && !IsDigit(r[0])
    ensures ReadFields(labels, Fields(labels, values) + r) == Ok(values, r)
    ensures labels != [] ==> Fields(labels, values) != "" && !IsDigit(Fields(labels, values)[0])
    decreases |labels|
  {
    hide ReadInt, Dec, Plain;
    if labels != [] {
      var tail := Fields(labels[1..], values[1..]) + r;
      FieldsRoundTrip(labels[1..], values[1..], r);
      DecRoundTrip(values[0], tail);
      FieldsHead(labels, values, r);
      ReadFieldsHead(labels, Dec(values[0]) + tail, values[0], tail, values[1..], r);
      assert [values[0]] + values[1..] == values;
      hide ReadFields, Fields;
    }
  }

  lemma FieldsHead(labels: seq<string>, values: seq<int>, r: string)
    requires |labels| == |values| && labels != []
    ensures Fields(labels, values) + r == labels[0] + (Dec(values[0]) + (Fields(labels[1..], values[1..]) + r))
    ensures labels[0] != "" ==> Fields(labels, values) != "" && Fields(labels, values)[0] == labels[0][0]
  {
    hide Dec;
    Regrouped(labels[0], Dec(values[0]), Fields(labels[1..], values[1..]), r);
  }

  lemma Regrouped(a: string, b: string, c: string, d: string)
    ensures a + b + c + d == a + (b + (c + d))
  {
    assert a + b + c + d == (a + b) + (c + d);
  }

  lemma ReadFieldsHead(labels: seq<string>, s: string, v: int, rest: string, vs: seq<int>, r: string)
    requires labels != [] && ReadInt(s) == Ok(v, rest) && ReadFields(labels[1..], rest) == Ok(vs, r)
    ensures ReadFields(labels, labels[0] + s) == Ok([v] + vs, r)
  {
    hide ReadInt;
    assert (labels[0] + s)[|labels[0]|..] == s;
  }

  function RowText(r: Row): string {
    Fields(LABELS, Values(r)) + "}"
  }

  function ReadRow(s: string): (r: Read<Row>)
    ensures r.Ok? ==> |r.rest| < |s|
  {
    match ReadFields(LABELS, s)
    case NotThere => NotThere
    case Ok(v, rest) =>
      if |v| == 7 && rest != "" && rest[0] == '}' then Ok(Row(v[0], v[1], v[2], v[3], v[4], v[5], v[6]), rest[1..])
      else NotThere
  }

  /** A row as the format string of the source spells it. */
  lemma RowSpelled(r: Row)
    ensures RowText(r) == (
      "{\"pump1\":" + Dec(r.pump1) + (",\"pump1_status\":" + Dec(r.pump1Status) + (
      ",\"pump2\":" + Dec(r.pump2) + (",\"pump2_status\":" + Dec(r.pump2Status) + (
      ",\"busy\":" + Dec(r.busy) + (",\"alarm\":" + Dec(r.alarm) + (
      ",\"timestamp\":" + Dec(r.timestamp)))))))) + "}"
  {
    hide Dec;
    var values := Values(r);
    FieldsStep(values, 0);
    FieldsStep(values, 1);
    FieldsStep(values, 2);
    FieldsStep(values, 3);
    FieldsStep(values, 4);
    FieldsStep(values, 5);
    FieldsStep(values, 6);
    assert LABELS[0..] == LABELS && values[0..] == values && LABELS[7..] == [];
    assert Fields(LABELS[7..], values[7..]) == "";
    assert Fields(LABELS[6..], values[6..]) == LABELS[6] + Dec(values[6]);
    hide Fields;
  }

  lemma FieldsStep(values: seq<int>, i: nat)
    requires |values| == 7 && i < 7
    ensures Fields(LABELS[i..], values[i..]) == LABELS[i] + Dec(values[i]) + Fields(LABELS[i + 1..], values[i + 1..])
  {
    hide Dec;
    assert LABELS[i..][1..] == LABELS[i + 1..] && values[i..][1..] == values[i + 1..];
  }

  lemma LabelPlain(i: nat)
    requires i < 7
    ensures LABELS[i] != "" && !IsDigit(LABELS[i][0]) && Plain(LABELS[i])
  {
  }

  lemma LabelsSeparate()
    ensures Separators(LABELS) && |LABELS| == 7
  {
    hide Plain;
    LabelPlain(0);
    LabelPlain(1);
    LabelPlain(2);
    LabelPlain(3);
    LabelPlain(4);
    LabelPlain(5);
    LabelPlain(6);
  }

  lemma RowRoundTrip(r: Row, t: string)
    ensures ReadRow(RowText(r) + t) == Ok(r, t)
  {
    hide Fields, ReadFields;
    LabelsSeparate();
    assert RowText(r) + t == Fields(LABELS, Values(r)) + ("}" + t);
    FieldsRoundTrip(LABELS, Values(r), "}" + t);
    assert ("}" + t)[1..] == t;
  }

  /** Widths of the labels from the i-th on and of the numbers behind them. */
  function Width(i: nat): nat
    requires i <= 7
    decreases 7 - i
  {
    if i == 7 then 0 else |LABELS[i]| + (if i == 6 then 20 else 11) + Width(i + 1)
  }

  lemma NumberWidth(r: Row, i: nat)
    requires Columns(r) && i < 7
    ensures |Values(r)| == 7 && Plain(Dec(Values(r)[i])) && |Dec(Values(r)[i])| <= if i == 6 then 20 else 11
  {
    hide Dec, Plain;
    DecLength(Values(r)[i]);
    assert i == 6 ==> Values(r)[i] == r.timestamp;
  }

  lemma PlainConcat(a: string, b: string)
    requires Plain(a) && Plain(b)
    ensures Plain(a + b)
  {
  }

  lemma {:induction false} FieldsWidth(r: Row, i: nat)
    requires Columns(r) && i <= 7
    ensures |Fields(LABELS[i..], Values(r)[i..])| <= Width(i)
    ensures Plain(Fields(LABELS[i..], Values(r)[i..]))
    decreases 7 - i
  {
    if i < 7 {
      hide Dec, Plain, Values;
      LabelsSeparate();
      NumberWidth(r, i);
      FieldsWidth(r, i + 1);
      var a, b := LABELS[i] + Dec(Values(r)[i]), Fields(LABELS[i + 1..], Values(r)[i + 1..]);
      assert LABELS[i..][1..] == LABELS[i + 1..] && Values(r)[i..][1..] == Values(r)[i + 1..];
      assert LABELS[i..][0] == LABELS[i] && Values(r)[i..][0] == Values(r)[i];
      PlainConcat(LABELS[i], Dec(Values(r)[i]));
      PlainConcat(a, b);
    }
  }

  /** A row and the comma before it take at most 168 characters. */
  lemma RowWidth(r: Row)
    requires Columns(r)
    ensures |RowText(r)| <= 167 && Plain(RowText(r))
  {
    FieldsWidth(r, 0);
    assert LABELS[0..] == LABELS && Values(r)[0..] == Values(r);
    assert Width(4) == 72;
    assert Width(0) == 166;
    hide Fields;
  }

  // ---- the list

  function Tail(rows: seq<Row>): string {
    if rows == [] then "" else "," + RowText(rows[0]) + Tail(rows[1..])
  }

  function Joined(rows: seq<Row>): string {
    if rows == [] then "" else RowText(rows[0]) + Tail(rows[1..])
  }

  function Reply(rows: seq<Row>): string {
    "{\"count\":" + Dec(|rows|) + (",\"data\":[" + Joined(rows) + "]}")
  }

  function ReadTail(s: string): Read<seq<Row>>
    decreases |s|
  {
    if s == "" || s[0] != ',' then Ok([], s)
    else
      match ReadRow(s[1..])
      case NotThere => NotThere
      case Ok(r, rest) =>
        match ReadTail(rest)
        case NotThere => NotThere
        case Ok(rs, rest') => Ok([r] + rs, rest')
  }

  function ReadRows(s: string): Read<seq<Row>> {
    if s == "" || s[0] == ']' then Ok([], s)
    else
      match ReadRow(s)
      case NotThere => NotThere
      case Ok(r, rest) =>
        match ReadTail(rest)
        case NotThere => NotThere
        case Ok(rs, rest') => Ok([r] + rs, rest')
  }

  /** What a client of the interface makes of the reply. */
  function ReadReply(s: string): Read<(int, seq<Row>)> {
    if !("{\"count\":" <= s) then NotThere
    else
      match ReadInt(s[9..])
      case NotThere => NotThere
      case Ok(count, data) =>
        if !(",\"data\":[" <= data) then NotThere
        else
          match ReadRows(data[9..])
          case NotThere => NotThere
          case Ok(rows, end) => if end == "]}" then Ok((count, rows), "") else NotThere
  }

  lemma {:induction false} TailRoundTrip(rows: seq<Row>, r: string)
    requires r != "" && r[0] != ','
    ensures ReadTail(Tail(rows) + r) == Ok(rows, r)
  {
    hide RowText, ReadRow;
    if rows != [] {
      var rest := Tail(rows[1..]) + r;
      assert Tail(rows) + r == "," + (RowText(rows[0]) + rest);
      assert (Tail(rows) + r)[1..] == RowText(rows[0]) + rest;
      RowRoundTrip(rows[0], rest);
      TailRoundTrip(rows[1..], r);
      assert [rows[0]] + rows[1..] == rows;
    }
  }

  lemma RowsRoundTrip(rows: seq<Row>)
    ensures ReadRows(Joined(rows) + "]}") == Ok(rows, "]}")
  {
    hide ReadRow, ReadTail, Tail;
    if rows != [] {
      assert Joined(rows) + "]}" == RowText(rows[0]) + (Tail(rows[1..]) + "]}");
      RowRoundTrip(rows[0], Tail(rows[1..]) + "]}");
      TailRoundTrip(rows[1..], "]}");
      RowStarts(rows[0]);
      assert [rows[0]] + rows[1..] == rows;
      hide RowText;
    }
  }

  /** The reply is a well-formed list: it reads back as the rows it was printed from, with their number. */
  lemma ReplyRoundTrip(rows: seq<Row>)
    ensures ReadReply(Reply(rows)) == Ok((|rows|, rows), "")
  {
    hide Dec, ReadInt, ReadRows, Joined;
    var data := ",\"data\":[" + Joined(rows) + "]}";
    DecRoundTrip(|rows|, data);
    assert Reply(rows)[9..] == Dec(|rows|) + data;
    assert data[9..] == Joined(rows) + "]}";
    RowsRoundTrip(rows);
  }

  lemma RowStarts(r: Row)
    ensures RowText(r) != "" && RowText(r)[0] == '{'
  {
    hide Dec;
    assert LABELS[0][0] == '{';
  }

  lemma {:induction false} TailAppend(rows: seq<Row>, r: Row)
    ensures Tail(rows + [r]) == Tail(rows) + ("," + RowText(r))
  {
    hide RowText;
    if rows == [] {
      assert rows + [r] == [r] && [r][1..] == [];
    } else {
      assert (rows + [r])[1..] == rows[1..] + [r] && (rows + [r])[0] == rows[0];
      TailAppend(rows[1..], r);
    }
  }

  lemma JoinedAppend(rows: seq<Row>, r: Row)
    ensures Joined(rows + [r]) == Joined(rows) + ((if rows == [] then "" else ",") + RowText(r))
  {
    hide RowText;
    if rows == [] {
      assert rows + [r] == [r] && [r][1..] == [];
    } else {
      assert (rows + [r])[1..] == rows[1..] + [r] && (rows + [r])[0] == rows[0];
      TailAppend(rows[1..], r);
    }
  }

  ghost predicate AllColumns(rows: seq<Row>) {
    forall i :: 0 <= i < |rows| ==> Columns(rows[i])
  }

  lemma {:induction false} JoinedWidth(rows: seq<Row>)
    requires AllColumns(rows)
    ensures |Joined(rows)| <= 168 * |rows| && (rows != [] ==> |Joined(rows)| < 168 * |rows|) && Plain(Joined(rows))
    decreases |rows|
  {
    if rows != [] {
      var n := |rows| - 1;
      hide Joined, RowText, Columns;
      JoinedWidth(rows[..n]);
      JoinedAppend(rows[..n], rows[n]);
      assert rows[..n] + [rows[n]] == rows;
      RowWidth(rows[n]);
      PlainConcat(if n == 0 then "" else ",", RowText(rows[n]));
      PlainConcat(Joined(rows[..n]), (if n == 0 then "" else ",") + RowText(rows[n]));
      hide Plain;
    } else {
      assert Joined(rows) == "";
    }
  }

  lemma ReplyLength(rows: seq<Row>)
    requires AllColumns(rows) && |rows| < 0x8000_0000
    ensures |Reply(rows)| <= |Joined(rows)| + 31
  {
    hide Joined, Dec;
    DecLength(|rows|);
  }

  // ---- the buffers

  /** The buffer holds this C string. */
  ghost predicate HoldsText(buf: seq<char>, s: string) {
    |s| < |buf| && buf[..|s|] == s && buf[|s|] == '\0' && Plain(s)
  }

  /** snprintf: at most `size` - 1 characters and a NUL; the result is the length before cutting. */
  method Snprintf(buf: array<char>, pos: nat, size: nat, text: string) returns (written: nat)
    requires size > 0 && pos + size <= buf.Length
    modifies buf
    ensures written == |text|
    ensures var kept := if |text| < size then |text| else size - 1;
            && buf[..pos + kept] == old(buf[..pos]) + text[..kept]
            && buf[pos + kept] == '\0'
  {
    var kept := if |text| < size then |text| else size - 1;
    forall i | 0 <= i < kept {
      buf[pos + i] := text[i];
    }
    buf[pos + kept] := '\0';
    written := |text|;
  }

  /** The characters before the first NUL, as %s prints them. */
  method StrLen(buf: array<char>, ghost s: string) returns (n: nat)
    requires HoldsText(buf[..], s)
    ensures n == |s| && n < buf.Length && buf[..n] == s
  {
    n := 0;
    assert forall i :: 0 <= i < |s| ==> buf[i] == buf[..][..|s|][i] == s[i];
    while buf[n] != '\0'
      invariant n <= |s|
      decreases |s| - n
    {
      n := n + 1;
    }
    assert buf[..n] == buf[..][..|s|];
  }

  const TEMP := 409600

  /** The number of rows that are printed: row by row while more than 200 characters remain. */
  ghost predicate Printed(rows: seq<Row>, n: nat) {
    && n <= |rows|
    && (n < |rows| ==> |Joined(rows[..n])| >= 409400)
    && forall m :: 0 <= m < n ==> |Joined(rows[..m])| < 409400
  }

  /** The row loop of db_get_history_filtered. No row is ever cut. */
  method PrintRows(rows: seq<Row>, temp: array<char>) returns (count: nat)
    requires AllColumns(rows) && temp.Length == TEMP
    modifies temp
    ensures count <= |rows| && Printed(rows, count) && HoldsText(temp[..], Joined(rows[..count])) &&
      |Joined(rows[..count])| < TEMP - 200 + 168
  {
    hide Joined, RowText, Columns;
    temp[0] := '\0';
    var ptr, remaining: int := 0, TEMP;
    count := 0;
    JoinedWidth(rows[..0]);
    while count < |rows| && remaining > 200
      invariant count <= |rows| && ptr == |Joined(rows[..count])| && ptr + remaining == TEMP && 0 < remaining
      invariant HoldsText(temp[..], Joined(rows[..count])) && ptr < TEMP - 200 + 168
      invariant forall m :: 0 <= m < count ==> |Joined(rows[..m])| < TEMP - 200
    {
      var comma := if count > 0 then "," else "";
      RowWidth(rows[count]);
      assert rows[..count + 1] == rows[..count] + [rows[count]];
      JoinedAppend(rows[..count], rows[count]);
      JoinedWidth(rows[..count + 1]);
      assert temp[..ptr] == temp[..][..ptr];
      var written := Snprintf(temp, ptr, remaining, comma + RowText(rows[count]));
      ptr := ptr + written;
      remaining := remaining - written;
      count := count + 1;
      assert temp[..ptr] == temp[..][..ptr];
    }
  }

  datatype Query = NoDatabase | PrepareFailed | Rows(rows: seq<Row>)

  /** LIMIT in SQL: a negative limit is none. */
  function Limited(rows: seq<Row>, limit: int): seq<Row> {
    if limit < 0 || |rows| <= limit then rows else rows[..limit]
  }

  /** db_get_history_filtered, given the rows in the range of times that is asked for, newest first. */
  method GetHistoryFiltered(output: array<char>, maxSize: nat, limit: int, query: Query)
    returns (rc: int, ghost count: nat)
    requires 0 < maxSize <= output.Length && 27 <= output.Length && (query.Rows? ==> AllColumns(query.rows))
    modifies output
    ensures rc == if query.Rows? then 0 else -1
    ensures query.NoDatabase? ==> HoldsText(output[..], "{\"error\":\"DB not init\"}")
    ensures query.PrepareFailed? ==> HoldsText(output[..], "{\"error\":\"Prepare failed\"}")
    ensures query.Rows? ==> count <= |query.rows| && Printed(Limited(query.rows, limit), count)
    ensures query.Rows? ==> |Joined(query.rows[..count])| < TEMP - 200 + 168
    ensures query.Rows? && |Reply(query.rows[..count])| < maxSize ==> HoldsText(output[..], Reply(query.rows[..count]))
  {
    hide Joined, Reply, Columns, Printed;
    count := 0;
    match query
    case NoDatabase =>
      var _ := Snprintf(output, 0, 27, "{\"error\":\"DB not init\"}");
      rc := -1;
    case PrepareFailed =>
      var _ := Snprintf(output, 0, 27, "{\"error\":\"Prepare failed\"}");
      rc := -1;
    case Rows(all) =>
      var rows := Limited(all, limit);
      var temp := new char[TEMP];
      var n := PrintRows(rows, temp);
      count := n;
      assert rows[..n] == all[..n];
      var len := StrLen(temp, Joined(rows[..n]));
      ReplyParts(rows[..n]);
      var _ := Snprintf(output, 0, maxSize, "{\"count\":" + Dec(n) + (",\"data\":[" + temp[..len] + "]}"));
      assert output[..0] == "";
      rc := 0;
  }

  lemma ReplyParts(rows: seq<Row>)
    requires AllColumns(rows)
    ensures Reply(rows) == "{\"count\":" + Dec(|rows|) + (",\"data\":[" + Joined(rows) + "]}") && Plain(Reply(rows))
  {
    hide Joined, Dec;
    JoinedWidth(rows);
    DecLength(|rows|);
  }

  /** The query's limit: 1000 unless the caller asks for one from 1 to 5000, and 5000 for more. */
  function Limit(requested: int): (limit: int)
    ensures 1 <= limit <= 5000
  {
    if requested > 5000 then 5000 else if requested < 1 then 1000 else requested
  }

  /** handle_pump_history. The caller's buffer is large enough for whatever is printed: the reply is never cut, and
      holds all rows up to the limit when they are no more than 2437. */
  method HandlePumpHistory(requested: int, query: Query) returns (ok: bool, response: array<char>, ghost count: nat)
    requires query.Rows? ==> AllColumns(query.rows)
    ensures ok <==> query.Rows?
    ensures var limit := if requested > 5000 then 5000 else if requested < 1 then 1000 else requested;
            ok ==> count <= |query.rows| && count <= limit &&
                   Printed(if |query.rows| <= limit then query.rows else query.rows[..limit], count)
    ensures ok ==> HoldsText(response[..], Reply(query.rows[..count]))
    ensures !ok ==> HoldsText(response[..], "{\"error\":\"Database failed\"}")
    ensures ok ==> ReadReply(Reply(query.rows[..count])) == Read.Ok((count as int, query.rows[..count]), "")
    ensures var limit := if requested > 5000 then 5000 else if requested < 1 then 1000 else requested;
            ok && (|query.rows| <= 2437 || limit <= 2437) ==>
              count == if |query.rows| <= limit then |query.rows| else limit
  {
    hide Joined, Reply, Columns, ReadReply, Printed;
    response := new char[512000];
    var limit := Limit(requested);
    var rc;
    rc, count := GetHistoryFiltered(response, 512000, limit, query);
    ok := rc == 0;
    if query.Rows? {
      PrintedAll(Limited(query.rows, limit), count);
      ReplyLength(query.rows[..count]);
      ReplyRoundTrip(query.rows[..count]);
    } else {
      response := new char[28];
      var _ := Snprintf(response, 0, 28, "{\"error\":\"Database failed\"}");
    }
  }

  lemma PrintedAll(rows: seq<Row>, n: nat)
    requires AllColumns(rows) && Printed(rows, n)
    ensures n <= |rows| && (|rows| <= 2437 ==> n == |rows|)
  {
    if n < |rows| {
      JoinedWidth(rows[..n]);
    }
  }
}
