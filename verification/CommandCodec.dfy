/** Queued commands in the persistent store: MQTTAsync_persistCommand writes one, MQTTAsync_restoreCommand reads it back
    in two passes. Integers are stored as the machine has them: four bytes, lowest first. */
module CommandCodec {
  import opened Codec
  import PublishPacket

  const PUBLISH := 3
  const SUBSCRIBE := 8
  const UNSUBSCRIBE := 10

  /** sizeof(MQTTSubscribe_options), kept as the bytes it is. */
  const OPTIONS := 12

  const NO_OPTIONS: seq<byte> := [0, 0, 0, 0, 0, 0, 0, 0, 0, 0, 0, 0]

  /** The subscriptions of a SUBSCRIBE: `opts` holds the options of a single one, `optlist` those of several. */
  datatype Subs = Subs(topics: seq<seq<byte>>, qoss: seq<int>, opts: seq<byte>, optlist: seq<seq<byte>>)

  const NO_SUBS := Subs([], [], NO_OPTIONS, [])

  /** A NULL topic or payload is empty here. */
  datatype Command =
    | Publish(token: int, topic: seq<byte>, payloadlen: int, payload: seq<byte>, qos: int, retained: int,
      props: seq<Property>)
    | Subscribe(token: int, subs: Subs, props: seq<Property>)
    | Unsubscribe(token: int, topics: seq<seq<byte>>, props: seq<Property>)

  predicate Int32(n: int) {
    -0x8000_0000 <= n < 0x8000_0000
  }

  function Le4(n: int): (b: seq<byte>)
    requires Int32(n)
    ensures |b| == 4
  {
    var u := if n < 0 then n + 0x1_0000_0000 else n;
    [u % 256, u / 256 % 256, u / 65536 % 256, u / 16777216]
  }

  function ReadLe4(d: seq<byte>): int
    requires |d| >= 4
  {
    var u := d[0] as int + 256 * (d[1] as int) + 65536 * (d[2] as int) + 16777216 * (d[3] as int);
    if u < 0x8000_0000 then u else u - 0x1_0000_0000
  }

  lemma DigitsBack(u: int)
    requires 0 <= u
    ensures u == u % 256 + 256 * (u / 256 % 256) + 65536 * (u / 65536 % 256) + 16777216 * (u / 16777216)
  {
    var a := u / 256;
    var b := a / 256;
    assert u / 65536 == b && u / 16777216 == b / 256;
  }

  lemma Le4RoundTrip(n: int, r: seq<byte>)
    requires Int32(n)
    ensures ReadLe4(Le4(n) + r) == n && (Le4(n) + r)[4..] == r
  {
    DigitsBack(if n < 0 then n + 0x1_0000_0000 else n);
  }

  // ---- writing

  /** What the calls that queue a command see to. */
  predicate Built(v5: bool, c: Command) {
    && Int32(c.token)
    && (if v5 then AllInRange(c.props) && |ListBytes(c.props)| < VBI_LIMIT else c.props == [])
    && match c
       case Publish(_, topic, payloadlen, payload, qos, retained, _) =>
         0 !in topic && payloadlen == |payload| && Int32(payloadlen) && Int32(qos) && Int32(retained)
       case Subscribe(_, subs, _) => SubsBuilt(v5, subs)
       case Unsubscribe(_, topics, _) => |topics| < 0x8000_0000 && NoNuls(topics)
  }

  predicate NoNuls(topics: seq<seq<byte>>) {
    forall i :: 0 <= i < |topics| ==> 0 !in topics[i]
  }

  predicate SubsBuilt(v5: bool, s: Subs) {
    && |s.topics| == |s.qoss| < 0x8000_0000 && NoNuls(s.topics)
    && (forall i :: 0 <= i < |s.qoss| ==> Int32(s.qoss[i]))
    && |s.opts| == OPTIONS && (forall i :: 0 <= i < |s.optlist| ==> |s.optlist[i]| == OPTIONS)
    && (v5 && |s.topics| != 1 ==> |s.optlist| == |s.topics|) && (!v5 || |s.topics| == 1 ==> s.optlist == [])
    && (!v5 ==> s.opts == NO_OPTIONS)
  }

  function OptionsAt(s: Subs, i: nat): seq<byte>
    requires SubsBuilt(true, s) && i < |s.topics|
  {
    if |s.topics| == 1 then s.opts else s.optlist[i]
  }

  function SubBytes(v5: bool, s: Subs, i: nat): seq<byte>
    requires SubsBuilt(v5, s) && i < |s.topics|
  {
    (s.topics[i] + [0]) + Le4(s.qoss[i]) + (if v5 then OptionsAt(s, i) else [])
  }

  function SubsFrom(v5: bool, s: Subs, i: nat): seq<byte>
    requires SubsBuilt(v5, s) && i <= |s.topics|
    decreases |s.topics| - i
  {
    if i == |s.topics| then [] else SubBytes(v5, s, i) + SubsFrom(v5, s, i + 1)
  }

  function TopicsFrom(topics: seq<seq<byte>>, i: nat): seq<byte>
    requires i <= |topics|
    decreases |topics| - i
  {
    if i == |topics| then [] else (topics[i] + [0]) + TopicsFrom(topics, i + 1)
  }

  function Details(v5: bool, c: Command): seq<byte>
    requires Built(v5, c)
  {
    match c
    case Publish(_, topic, payloadlen, payload, qos, retained, _) =>
      (topic + [0]) + (Le4(payloadlen) + (payload + (Le4(qos) + Le4(retained))))
    case Subscribe(_, subs, _) => Le4(|subs.topics|) + SubsFrom(v5, subs, 0)
    case Unsubscribe(_, topics, _) => Le4(|topics|) + TopicsFrom(topics, 0)
  }

  function TypeOfCommand(c: Command): int {
    match c
    case Publish(_, _, _, _, _, _, _) => PUBLISH
    case Subscribe(_, _, _) => SUBSCRIBE
    case Unsubscribe(_, _, _) => UNSUBSCRIBE
  }

  /** The record under a command's key. */
  function Encoded(v5: bool, c: Command): seq<byte>
    requires Built(v5, c)
  {
    Le4(TypeOfCommand(c)) + (Le4(c.token) + (Details(v5, c) + (if v5 then Block(c.props) else [])))
  }

  /** The order of the fields; a single subscription has its QoS and, in version 5, its options behind its topic. */
  lemma Layout(v5: bool, c: Command)
    requires Built(v5, c)
    ensures var props := if v5 then Block(c.props) else [];
            match c
            case Publish(token, topic, payloadlen, payload, qos, retained, _) =>
              Encoded(v5, c) == [3, 0, 0, 0] + Le4(token) + topic + [0] + Le4(payloadlen) + payload + Le4(qos) +
                                Le4(retained) + props
            case Subscribe(token, subs, _) =>
              |subs.topics| == 1 ==>
                Encoded(v5, c) == [8, 0, 0, 0] + Le4(token) + [1, 0, 0, 0] + subs.topics[0] + [0] + Le4(subs.qoss[0]) +
                                  (if v5 then subs.opts else []) + props
            case Unsubscribe(token, topics, _) =>
              |topics| == 1 ==>
                Encoded(v5, c) == [10, 0, 0, 0] + Le4(token) + [1, 0, 0, 0] + topics[0] + [0] + props
  {
    assert Le4(3) == [3, 0, 0, 0] && Le4(8) == [8, 0, 0, 0] && Le4(10) == [10, 0, 0, 0] && Le4(1) == [1, 0, 0, 0];
    var props := if v5 then Block(c.props) else [];
    hide Le4, Block, ListBytes, AllInRange;
    match c
    case Publish(token, topic, payloadlen, payload, qos, retained, _) =>
      Joined8(Le4(3), Le4(token), topic, Le4(payloadlen), payload, Le4(qos), Le4(retained), props);
    case Subscribe(token, subs, _) =>
      if |subs.topics| == 1 {
        assert SubsFrom(v5, subs, 1) == [];
        var opts := if v5 then subs.opts else [];
        assert SubsFrom(v5, subs, 0) == (subs.topics[0] + [0]) + Le4(subs.qoss[0]) + opts;
        Joined6(Le4(8), Le4(token), Le4(1), subs.topics[0], Le4(subs.qoss[0]), opts, props);
      }
    case Unsubscribe(token, topics, _) =>
      if |topics| == 1 {
        assert TopicsFrom(topics, 1) == [];
        assert TopicsFrom(topics, 0) == topics[0] + [0];
        Joined6(Le4(10), Le4(token), Le4(1), topics[0], [], [], props);
      }
  }

  lemma Joined8(a: seq<byte>, b: seq<byte>, c: seq<byte>, d: seq<byte>, e: seq<byte>, f: seq<byte>, g: seq<byte>,
                h: seq<byte>)
    ensures a + (b + (((c + [0]) + (d + (e + (f + g)))) + h)) == a + b + c + [0] + d + e + f + g + h
  {
  }

  lemma Joined6(a: seq<byte>, b: seq<byte>, c: seq<byte>, d: seq<byte>, e: seq<byte>, f: seq<byte>, g: seq<byte>)
    ensures a + (b + ((c + ((d + [0]) + e + f)) + g)) == a + b + c + d + [0] + e + f + g
  {
  }

  // ---- reading

  /** The topic at the head. One whose NUL is the very last byte is refused; one without a NUL is not, and copying it
      would read past the end. */
  function ReadTopic(d: seq<byte>, copied: bool): (r: Read<seq<byte>>)
    ensures r.Ok? ==> |r.rest| < |d|
  {
    var n := |PublishPacket.CString(d)|;
    if n + 1 == |d| then Bad
    else if n == |d| then (if copied then Overrun else Bad)
    else Ok(d[..n], d[n + 1..])
  }

  /** One subscription, added to those read so far. */
  function ReadSub(v5: bool, d: seq<byte>, count: int, s: Subs): (r: Read<Subs>)
    ensures r.Ok? ==> |r.rest| < |d| && |r.value.topics| == |s.topics| + 1
  {
    match ReadTopic(d, true)
    case Bad => Bad
    case Overrun => Overrun
    case Ok(topic, q) =>
      if |q| < 4 then Bad
      else
        var t := s.(topics := s.topics + [topic], qoss := s.qoss + [ReadLe4(q)]);
        if !v5 then Ok(t, q[4..])
        else if |q[4..]| < OPTIONS then Bad
        else if count == 1 then Ok(t.(opts := q[4..][..OPTIONS]), q[4..][OPTIONS..])
        else Ok(t.(optlist := t.optlist + [q[4..][..OPTIONS]]), q[4..][OPTIONS..])
  }

  function ReadSubs(v5: bool, d: seq<byte>, count: int, s: Subs): Read<Subs>
    decreases |d|
  {
    if |s.topics| >= count then Ok(s, d)
    else
      match ReadSub(v5, d, count, s)
      case Bad => Bad
      case Overrun => Overrun
      case Ok(t, rest) => ReadSubs(v5, rest, count, t)
  }

  function ReadTopics(d: seq<byte>, count: int, sofar: seq<seq<byte>>): Read<seq<seq<byte>>>
    decreases |d|
  {
    if |sofar| >= count then Ok(sofar, d)
    else
      match ReadTopic(d, true)
      case Bad => Bad
      case Overrun => Overrun
      case Ok(topic, rest) => ReadTopics(rest, count, sofar + [topic])
  }

  /** In the first pass only what scheduling needs is kept. */
  function ReadPublish(token: int, first: bool, d: seq<byte>): Read<Command> {
    match ReadTopic(d, !first)
    case Bad => Bad
    case Overrun => Overrun
    case Ok(topic, p) => ReadPayload(token, first, if first then [] else topic, p)
  }

  function ReadPayload(token: int, first: bool, topic: seq<byte>, p: seq<byte>): Read<Command> {
    if |p| < 4 then Bad
    else
      var n := ReadLe4(p);
      if n < 0 then Overrun
      else if n > |p[4..]| then Bad
      else ReadFlags(token, topic, n, if first then [] else p[4..][..n], p[4..][n..])
  }

  function ReadFlags(token: int, topic: seq<byte>, payloadlen: int, payload: seq<byte>, t: seq<byte>): Read<Command> {
    if |t| < 8 then Bad
    else Ok(Publish(token, topic, payloadlen, payload, ReadLe4(t), ReadLe4(t[4..]), []), t[4..][4..])
  }

  function ReadSubscribe(v5: bool, token: int, first: bool, d: seq<byte>): Read<Command> {
    if first then Ok(Subscribe(token, NO_SUBS, []), d)
    else if |d| < 4 then Bad
    else
      match ReadSubs(v5, d[4..], ReadLe4(d), NO_SUBS)
      case Bad => Bad
      case Overrun => Overrun
      case Ok(s, rest) => Ok(Subscribe(token, s, []), rest)
  }

  function ReadUnsubscribe(token: int, first: bool, d: seq<byte>): Read<Command> {
    if first then Ok(Unsubscribe(token, [], []), d)
    else if |d| < 4 then Bad
    else
      match ReadTopics(d[4..], ReadLe4(d), [])
      case Bad => Bad
      case Overrun => Overrun
      case Ok(ts, rest) => Ok(Unsubscribe(token, ts, []), rest)
  }

  function ReadDetails(v5: bool, kind: int, token: int, first: bool, d: seq<byte>): Read<Command> {
    if kind == SUBSCRIBE then ReadSubscribe(v5, token, first, d)
    else if kind == UNSUBSCRIBE then ReadUnsubscribe(token, first, d)
    else if kind == PUBLISH then ReadPublish(token, first, d)
    else Bad
  }

  function WithProperties(v5: bool, first: bool, c: Command, d: seq<byte>): Read<Command> {
    if first || !v5 then Ok(c, [])
    else
      match ReadProperties(d)
      case Bad => Bad
      case Overrun => Overrun
      case Ok(ps, _) => Ok(c.(props := ps), [])
  }

  /** MQTTAsync_restoreCommand. */
  function Restore(v5: bool, first: bool, d: seq<byte>): Read<Command> {
    if |d| < 8 then Bad
    else
      match ReadDetails(v5, ReadLe4(d), ReadLe4(d[4..]), first, d[4..][4..])
      case Bad => Bad
      case Overrun => Overrun
      case Ok(c, rest) => WithProperties(v5, first, c, rest)
  }

  // ---- round trips

  lemma {:induction false} TopicRoundTrip(t: seq<byte>, r: seq<byte>)
    requires 0 !in t
    ensures PublishPacket.CString(t + [0] + r) == t
  {
    var d := t + [0] + r;
    if t != [] {
      assert d[1..] == t[1..] + [0] + r;
      TopicRoundTrip(t[1..], r);
      assert t == [t[0]] + t[1..];
    }
  }

  /** A topic is read back unless nothing at all follows its NUL. */
  lemma TopicRead(t: seq<byte>, r: seq<byte>, copied: bool)
    requires 0 !in t
    ensures ReadTopic((t + [0]) + r, copied) == if r == [] then Bad else Ok(t, r)
  {
    hide PublishPacket.CString;
    var d := (t + [0]) + r;
    TopicRoundTrip(t, r);
    assert d[..|t|] == t && d[|t| + 1..] == r;
  }

  /** What the record holds of the subscriptions: `opts` is stored with a single one only. */
  function SubsKept(s: Subs): Subs {
    if |s.topics| == 1 then s else s.(opts := NO_OPTIONS)
  }

  /** The part of a subscription list that has been read so far. */
  function Prefix(v5: bool, s: Subs, i: nat): Subs
    requires SubsBuilt(v5, s) && i <= |s.topics|
  {
    Subs(s.topics[..i], s.qoss[..i], if i > 0 && |s.topics| == 1 then s.opts else NO_OPTIONS,
         if v5 && |s.topics| != 1 then s.optlist[..i] else [])
  }

  lemma SubStep(v5: bool, s: Subs, i: nat, r: seq<byte>)
    requires SubsBuilt(v5, s) && i < |s.topics|
    ensures ReadSub(v5, SubBytes(v5, s, i) + r, |s.topics|, Prefix(v5, s, i)) == Ok(Prefix(v5, s, i + 1), r)
  {
    hide ReadTopic, Le4, ReadLe4;
    var tail := (if v5 then OptionsAt(s, i) else []) + r;
    assert SubBytes(v5, s, i) + r == (s.topics[i] + [0]) + (Le4(s.qoss[i]) + tail);
    TopicRead(s.topics[i], Le4(s.qoss[i]) + tail, true);
    Le4RoundTrip(s.qoss[i], tail);
    assert v5 ==> tail[..OPTIONS] == OptionsAt(s, i) && tail[OPTIONS..] == r;
    assert !v5 ==> tail == r;
    assert s.topics[..i + 1] == s.topics[..i] + [s.topics[i]] && s.qoss[..i + 1] == s.qoss[..i] + [s.qoss[i]];
    assert v5 && |s.topics| != 1 ==> s.optlist[..i + 1] == s.optlist[..i] + [s.optlist[i]];
  }

  lemma {:induction false} SubsRoundTrip(v5: bool, s: Subs, i: nat, r: seq<byte>)
    requires SubsBuilt(v5, s) && i <= |s.topics|
    ensures ReadSubs(v5, SubsFrom(v5, s, i) + r, |s.topics|, Prefix(v5, s, i)) == Ok(SubsKept(s), r)
    decreases |s.topics| - i
  {
    hide ReadSub, SubBytes;
    if i == |s.topics| {
      assert SubsFrom(v5, s, i) + r == r;
      assert Prefix(v5, s, i) == SubsKept(s);
    } else {
      assert |Prefix(v5, s, i).topics| == i;
      SubsFromStep(v5, s, i, r);
      SubStep(v5, s, i, SubsFrom(v5, s, i + 1) + r);
      ReadSubsStep(v5, SubsFrom(v5, s, i) + r, |s.topics|, Prefix(v5, s, i));
      hide SubsBuilt, Prefix, SubsFrom, ReadSubs;
      SubsRoundTrip(v5, s, i + 1, r);
    }
  }

  lemma SubsFromStep(v5: bool, s: Subs, i: nat, r: seq<byte>)
    requires SubsBuilt(v5, s) && i < |s.topics|
    ensures SubsFrom(v5, s, i) + r == SubBytes(v5, s, i) + (SubsFrom(v5, s, i + 1) + r)
  {
    hide SubBytes, SubsBuilt;
  }

  lemma ReadSubsStep(v5: bool, d: seq<byte>, count: int, s: Subs)
    requires |s.topics| < count && ReadSub(v5, d, count, s).Ok?
    ensures var r := ReadSub(v5, d, count, s); ReadSubs(v5, d, count, s) == ReadSubs(v5, r.rest, count, r.value)
  {
    hide ReadSub;
  }

  lemma {:induction false} TopicsRoundTrip(ts: seq<seq<byte>>, i: nat, r: seq<byte>)
    requires NoNuls(ts) && i <= |ts|
    ensures ReadTopics(TopicsFrom(ts, i) + r, |ts|, ts[..i]) == if r == [] && i < |ts| then Bad else Ok(ts, r)
    decreases |ts| - i
  {
    hide ReadTopic;
    if i == |ts| {
      assert TopicsFrom(ts, i) + r == r && ts[..i] == ts;
    } else {
      var tail := TopicsFrom(ts, i + 1) + r;
      assert TopicsFrom(ts, i) + r == (ts[i] + [0]) + tail;
      TopicRead(ts[i], tail, true);
      TopicsRoundTrip(ts, i + 1, r);
      assert ts[..i + 1] == ts[..i] + [ts[i]];
    }
  }

  lemma FlagsRoundTrip(c: Command, topic: seq<byte>, payload: seq<byte>, r: seq<byte>)
    requires c.Publish? && Int32(c.qos) && Int32(c.retained)
    ensures ReadFlags(c.token, topic, c.payloadlen, payload, Le4(c.qos) + (Le4(c.retained) + r)) ==
              Ok(Publish(c.token, topic, c.payloadlen, payload, c.qos, c.retained, []), r)
  {
    hide Le4, ReadLe4;
    Le4RoundTrip(c.qos, Le4(c.retained) + r);
    Le4RoundTrip(c.retained, r);
  }

  lemma PayloadRoundTrip(n: int, payload: seq<byte>, end: seq<byte>, token: int, first: bool, topic: seq<byte>)
    requires n == |payload| && Int32(n)
    ensures ReadPayload(token, first, topic, Le4(n) + (payload + end)) ==
      ReadFlags(token, topic, n, if first then [] else payload, end)
  {
    hide Le4, ReadLe4, ReadFlags;
    Le4RoundTrip(n, payload + end);
    assert (payload + end)[..n] == payload && (payload + end)[n..] == end;
  }

  lemma PublishRoundTrip(v5: bool, c: Command, first: bool, r: seq<byte>)
    requires Built(v5, c) && c.Publish?
    ensures ReadPublish(c.token, first, Details(v5, c) + r) == Ok(if first then Summary(c) else Bare(c), r)
  {
    hide ReadTopic, Le4, ReadPayload, ReadFlags;
    var end := Le4(c.qos) + (Le4(c.retained) + r);
    var body := Le4(c.payloadlen) + (c.payload + end);
    PublishParts(c.topic + [0], Le4(c.payloadlen), c.payload, Le4(c.qos), Le4(c.retained), r);
    TopicRead(c.topic, body, !first);
    var topic := if first then [] else c.topic;
    PayloadRoundTrip(c.payloadlen, c.payload, end, c.token, first, topic);
    FlagsRoundTrip(c, topic, if first then [] else c.payload, r);
  }

  lemma PublishParts(a: seq<byte>, b: seq<byte>, c: seq<byte>, d: seq<byte>, e: seq<byte>, r: seq<byte>)
    ensures (a + (b + (c + (d + e)))) + r == a + (b + (c + (d + (e + r))))
  {
  }

  /** What is known of a command after the first pass. */
  function Summary(c: Command): Command {
    match c
    case Publish(token, _, payloadlen, _, qos, retained, _) => Publish(token, [], payloadlen, [], qos, retained, [])
    case Subscribe(token, _, _) => Subscribe(token, NO_SUBS, [])
    case Unsubscribe(token, _, _) => Unsubscribe(token, [], [])
  }

  function Bare(c: Command): Command {
    c.(props := [])
  }

  /** The command as its record has it. */
  function Kept(c: Command): Command {
    if c.Subscribe? then c.(subs := SubsKept(c.subs)) else c
  }

  /** The one kind of record that cannot be read back. */
  predicate Unreadable(v5: bool, c: Command) {
    c.Unsubscribe? && c.topics != [] && !v5
  }

  lemma DetailsRoundTrip(v5: bool, c: Command, r: seq<byte>)
    requires Built(v5, c) && (v5 <==> r != [])
    ensures ReadDetails(v5, TypeOfCommand(c), c.token, false, Details(v5, c) + r) ==
      if Unreadable(v5, c) then Bad else Ok(Bare(Kept(c)), r)
  {
    hide ReadSubs, ReadTopics, ReadPublish, SubsBuilt, Le4, ReadLe4;
    match c
    case Publish(_, _, _, _, _, _, _) =>
      PublishRoundTrip(v5, c, false, r);
    case Subscribe(_, subs, _) =>
      SubsCount(v5, subs);
      Le4RoundTrip(|subs.topics|, SubsFrom(v5, subs, 0) + r);
      assert Details(v5, c) + r == Le4(|subs.topics|) + (SubsFrom(v5, subs, 0) + r);
      SubsRoundTrip(v5, subs, 0, r);
    case Unsubscribe(_, topics, _) =>
      Le4RoundTrip(|topics|, TopicsFrom(topics, 0) + r);
      assert Details(v5, c) + r == Le4(|topics|) + (TopicsFrom(topics, 0) + r);
      TopicsRoundTrip(topics, 0, r);
      assert topics[..0] == [];
  }

  lemma SubsCount(v5: bool, s: Subs)
    requires SubsBuilt(v5, s)
    ensures |s.topics| < 0x8000_0000 && Prefix(v5, s, 0) == NO_SUBS
  {
  }

  lemma HeadRoundTrip(v5: bool, c: Command)
    requires Built(v5, c)
    ensures var d, r := Encoded(v5, c), if v5 then Block(c.props) else [];
            |d| >= 8 && ReadLe4(d) == TypeOfCommand(c) && ReadLe4(d[4..]) == c.token &&
            d[4..][4..] == Details(v5, c) + r
  {
    hide Le4, ReadLe4, Details, Block;
    var r := Details(v5, c) + (if v5 then Block(c.props) else []);
    Le4RoundTrip(TypeOfCommand(c), Le4(c.token) + r);
    Le4RoundTrip(c.token, r);
  }

  /** The part of a command that its record does not hold: `opts` beside several subscriptions, or none. */
  predicate OptsLost(c: Command) {
    c.Subscribe? && |c.subs.topics| != 1 && c.subs.opts != NO_OPTIONS
  }

  /** A persisted command is read back in two passes: the first gives its summary, the second the whole command but for
      an `opts` that is not in use. Only a 3.1.1 UNSUBSCRIBE with topics is lost: its second pass fails. */
  lemma TwoPassRestore(v5: bool, c: Command)
    requires Built(v5, c)
    ensures Restore(v5, true, Encoded(v5, c)) == Ok(Summary(c), [])
    ensures Restore(v5, false, Encoded(v5, c)) == if Unreadable(v5, c) then Bad else Ok(Kept(c), [])
    ensures Restore(v5, false, Encoded(v5, c)) == Ok(c, []) <==> !Unreadable(v5, c) && !OptsLost(c)
  {
    hide ReadPublish, ReadSubs, ReadTopics, ReadProperties, Details, Encoded, ReadLe4, SubsBuilt, Block;
    var r := if v5 then Block(c.props) else [];
    HeadRoundTrip(v5, c);
    if v5 {
      PropertiesRoundTrip(c.props, []);
      assert r + [] == r;
      BlockNotEmpty(c.props);
    }
    DetailsRoundTrip(v5, c, r);
    if c.Publish? { PublishRoundTrip(v5, c, true, r); }
  }

  /** The options that a dispatched SUBSCRIBE is sent with, one for each topic. */
  function SentOptions(s: Subs): seq<seq<byte>> {
    if |s.topics| > 1 then s.optlist else [s.opts]
  }

  /** What is lost is not sent: the restored command asks for the same subscriptions with the same options. */
  lemma RestoredSubscribesAlike(v5: bool, c: Command)
    requires Built(v5, c) && c.Subscribe? && c.subs.topics != []
    ensures Restore(v5, false, Encoded(v5, c)).Ok?
    ensures var d := Restore(v5, false, Encoded(v5, c)).value;
            && d.Subscribe? && d.token == c.token && d.props == c.props
            && d.subs.topics == c.subs.topics && d.subs.qoss == c.subs.qoss
            && SentOptions(d.subs) == SentOptions(c.subs)
  {
    TwoPassRestore(v5, c);
    hide Restore, Encoded, SubsBuilt;
  }

  /** MQTTSubscribe_options_initializer, which a response that sets no options carries: the eyecatcher, then zeros. */
  const INITIALIZER: seq<byte> := [77, 81, 83, 79, 0, 0, 0, 0, 0, 0, 0, 0]

  /** Two subscriptions built with it come back with their own options, but with an `opts` of zeros. */
  lemma InitializerNotRestored(token: int, t1: seq<byte>, t2: seq<byte>, q1: int, q2: int)
    requires Int32(token) && Int32(q1) && Int32(q2) && 0 !in t1 && 0 !in t2
    ensures var c := Subscribe(token, Subs([t1, t2], [q1, q2], INITIALIZER, [INITIALIZER, INITIALIZER]), []);
            && Built(true, c)
            && Restore(true, false, Encoded(true, c)) == Ok(c.(subs := c.subs.(opts := NO_OPTIONS)), [])
            && Restore(true, false, Encoded(true, c)) != Ok(c, [])
  {
    var c := Subscribe(token, Subs([t1, t2], [q1, q2], INITIALIZER, [INITIALIZER, INITIALIZER]), []);
    assert INITIALIZER[0] != NO_OPTIONS[0];
    assert ListBytes([]) == [];
    assert Built(true, c);
    hide Restore, Encoded, Built;
    TwoPassRestore(true, c);
  }

  lemma BlockNotEmpty(ps: seq<Property>)
    requires AllInRange(ps)
    ensures Block(ps) != []
  {
  }

  // ---- the loops

  /** The next of the buffers handed to the store. */
  method Push(bufs: array<seq<byte>>, k: nat, b: seq<byte>) returns (next: nat)
    requires k < bufs.Length
    modifies bufs
    ensures next == k + 1 && Concat(bufs[..next]) == Concat(old(bufs[..k])) + b
  {
    bufs[k] := b;
    next := k + 1;
    assert bufs[..k + 1][..k] == old(bufs[..k]);
  }

  method PushHead(bufs: array<seq<byte>>, kind: int, token: int) returns (next: nat)
    requires 2 <= bufs.Length && Int32(kind) && Int32(token)
    modifies bufs
    ensures next == 2 && Concat(bufs[..next]) == Le4(kind) + Le4(token)
  {
    hide Le4;
    next := Push(bufs, 0, Le4(kind));
    assert Concat(old(bufs[..0])) == [];
    next := Push(bufs, next, Le4(token));
  }

  /** One subscription: topic, QoS and, in version 5, the options. */
  method PushSub(bufs: array<seq<byte>>, k: nat, v5: bool, s: Subs, i: nat) returns (next: nat)
    requires SubsBuilt(v5, s) && i < |s.topics| && k + (if v5 then 3 else 2) <= bufs.Length
    modifies bufs
    ensures next == k + (if v5 then 3 else 2) && Concat(bufs[..next]) == Concat(old(bufs[..k])) + SubBytes(v5, s, i)
  {
    hide Le4, Concat;
    next := Push(bufs, k, s.topics[i] + [0]);
    next := Push(bufs, next, Le4(s.qoss[i]));
    if v5 {
      if |s.topics| == 1 {
        next := Push(bufs, next, s.opts);
      } else {
        next := Push(bufs, next, s.optlist[i]);
      }
    }
  }

  method PersistSubscribe(v5: bool, c: Command) returns (bufs: array<seq<byte>>, k: nat)
    requires Built(v5, c) && c.Subscribe?
    ensures fresh(bufs) && k + (if v5 then 1 else 0) == bufs.Length
    ensures Concat(bufs[..k]) == Le4(SUBSCRIBE) + Le4(c.token) + Details(v5, c)
  {
    hide Le4, Concat, SubBytes;
    var s, count := c.subs, |c.subs.topics|;
    bufs := new seq<byte>[if v5 then 4 + count * 3 else 3 + count * 2](_ => []);
    k := PushHead(bufs, SUBSCRIBE, c.token);
    k := Push(bufs, k, Le4(count));
    ghost var head := Concat(bufs[..k]);
    var i := 0;
    while i < count
      invariant i <= count && k == 3 + (if v5 then i * 3 else i * 2)
      invariant Concat(bufs[..k]) + SubsFrom(v5, s, i) == head + SubsFrom(v5, s, 0)
    {
      Assoc(Concat(bufs[..k]), SubBytes(v5, s, i), SubsFrom(v5, s, i + 1));
      k := PushSub(bufs, k, v5, s, i);
      i := i + 1;
    }
    Assoc(Le4(SUBSCRIBE) + Le4(c.token), Le4(count), SubsFrom(v5, s, 0));
  }

  lemma Assoc(a: seq<byte>, b: seq<byte>, c: seq<byte>)
    ensures a + b + c == a + (b + c)
    ensures a + [] == a
  {
  }

  method PersistUnsubscribe(v5: bool, c: Command) returns (bufs: array<seq<byte>>, k: nat)
    requires Built(v5, c) && c.Unsubscribe?
    ensures fresh(bufs) && k + (if v5 then 1 else 0) == bufs.Length
    ensures Concat(bufs[..k]) == Le4(UNSUBSCRIBE) + Le4(c.token) + Details(v5, c)
  {
    hide Le4, Concat;
    var topics := c.topics;
    bufs := new seq<byte>[(if v5 then 4 else 3) + |topics|](_ => []);
    k := PushHead(bufs, UNSUBSCRIBE, c.token);
    k := Push(bufs, k, Le4(|topics|));
    ghost var head := Concat(bufs[..k]);
    var i := 0;
    while i < |topics|
      invariant i <= |topics| && k == 3 + i
      invariant Concat(bufs[..k]) + TopicsFrom(topics, i) == head + TopicsFrom(topics, 0)
    {
      Assoc(Concat(bufs[..k]), topics[i] + [0], TopicsFrom(topics, i + 1));
      k := Push(bufs, k, topics[i] + [0]);
      i := i + 1;
    }
    Assoc(Le4(UNSUBSCRIBE) + Le4(c.token), Le4(|topics|), TopicsFrom(topics, 0));
  }

  method PersistPublish(v5: bool, c: Command) returns (bufs: array<seq<byte>>, k: nat)
    requires Built(v5, c) && c.Publish?
    ensures fresh(bufs) && k + (if v5 then 1 else 0) == bufs.Length
    ensures Concat(bufs[..k]) == Le4(PUBLISH) + Le4(c.token) + Details(v5, c)
  {
    hide Le4, Concat, Details;
    bufs := new seq<byte>[if v5 then 8 else 7](_ => []);
    k := PushHead(bufs, PUBLISH, c.token);
    k := Push(bufs, k, c.topic + [0]);
    k := Push(bufs, k, Le4(c.payloadlen));
    k := Push(bufs, k, c.payload);
    k := Push(bufs, k, Le4(c.qos));
    k := Push(bufs, k, Le4(c.retained));
    Joined(Le4(PUBLISH) + Le4(c.token), c.topic + [0], Le4(c.payloadlen), c.payload, Le4(c.qos), Le4(c.retained));
    PublishDetails(v5, c);
  }

  lemma PublishDetails(v5: bool, c: Command)
    requires Built(v5, c) && c.Publish?
    ensures Details(v5, c) == (c.topic + [0]) + (Le4(c.payloadlen) + (c.payload + (Le4(c.qos) + Le4(c.retained))))
  {
  }

  lemma Joined(h: seq<byte>, a: seq<byte>, b: seq<byte>, c: seq<byte>, d: seq<byte>, e: seq<byte>)
    ensures h + a + b + c + d + e == h + (a + (b + (c + (d + e))))
  {
    assert h + a + b + c + d + e == h + a + b + c + (d + e);
    assert h + a + b + c + (d + e) == h + a + b + (c + (d + e));
    assert h + a + b + (c + (d + e)) == h + a + (b + (c + (d + e)));
  }

  /** MQTTAsync_persistCommand: the buffers allotted are exactly those filled, and together they are the record. */
  method PersistCommand(v5: bool, c: Command) returns (bufs: array<seq<byte>>)
    requires Built(v5, c)
    ensures fresh(bufs) && Concat(bufs[..]) == Encoded(v5, c)
  {
    hide Le4, Concat, Details, Block;
    var k;
    match c {
      case Subscribe(_, _, _) => bufs, k := PersistSubscribe(v5, c);
      case Unsubscribe(_, _, _) => bufs, k := PersistUnsubscribe(v5, c);
      case Publish(_, _, _, _, _, _, _) => bufs, k := PersistPublish(v5, c);
    }
    if v5 {
      var _ := Push(bufs, k, Block(c.props));
    }
    assert bufs[..] == bufs[..bufs.Length];
    Parts(Le4(TypeOfCommand(c)), Le4(c.token), Details(v5, c), if v5 then Block(c.props) else []);
  }

  lemma Parts(a: seq<byte>, b: seq<byte>, c: seq<byte>, d: seq<byte>)
    ensures a + (b + (c + d)) == a + b + c + d
    ensures a + b + c + [] == a + b + c
  {
  }

  /** strnlen. */
  method StrNLen(buffer: seq<byte>, ptr: nat) returns (n: nat)
    requires ptr <= |buffer|
    ensures n == |PublishPacket.CString(buffer[ptr..])|
  {
    n := 0;
    assert buffer[ptr + 0..] == buffer[ptr..];
    while ptr + n < |buffer| && buffer[ptr + n] != 0
      invariant ptr + n <= |buffer|
      invariant n + |PublishPacket.CString(buffer[ptr + n..])| == |PublishPacket.CString(buffer[ptr..])|
    {
      assert buffer[ptr + n..][1..] == buffer[ptr + (n + 1)..];
      n := n + 1;
    }
  }

  method RestoreSub(buffer: seq<byte>, start: nat, v5: bool, count: int, sofar: Subs)
    returns (ok: bool, s: Subs, ptr: nat)
    requires start <= |buffer| && !ReadSub(v5, buffer[start..], count, sofar).Overrun?
    ensures var r := ReadSub(v5, buffer[start..], count, sofar);
            if r.Ok? then ok && s == r.value && ptr <= |buffer| && buffer[ptr..] == r.rest else !ok
  {
    hide ReadLe4, PublishPacket.CString;
    ptr, s, ok := start, sofar, false;
    ghost var d := buffer[ptr..];
    var size := StrNLen(buffer, ptr);
    size := size + 1;
    if size == |buffer| - ptr {
      return;
    }
    var topic := buffer[ptr..][..size - 1];
    ptr := ptr + size;
    assert buffer[ptr..] == d[size..];
    if ptr + 4 > |buffer| {
      return;
    }
    s := s.(topics := s.topics + [topic], qoss := s.qoss + [ReadLe4(buffer[ptr..])]);
    ptr := ptr + 4;
    assert buffer[ptr..] == d[size..][4..];
    if v5 {
      if ptr + OPTIONS > |buffer| {
        return;
      }
      if count == 1 {
        s := s.(opts := buffer[ptr..][..OPTIONS]);
      } else {
        s := s.(optlist := s.optlist + [buffer[ptr..][..OPTIONS]]);
      }
      ptr := ptr + OPTIONS;
      assert buffer[ptr..] == d[size..][4..][OPTIONS..];
    }
    ok := true;
  }

  method RestoreSubs(buffer: seq<byte>, start: nat, v5: bool, count: int) returns (ok: bool, s: Subs, ptr: nat)
    requires start <= |buffer| && !ReadSubs(v5, buffer[start..], count, NO_SUBS).Overrun?
    ensures var r := ReadSubs(v5, buffer[start..], count, NO_SUBS);
            if r.Ok? then ok && s == r.value && ptr <= |buffer| && buffer[ptr..] == r.rest else !ok
  {
    hide ReadSub;
    ghost var whole := ReadSubs(v5, buffer[start..], count, NO_SUBS);
    ptr, s, ok := start, NO_SUBS, true;
    var i := 0;
    while i < count && ok
      invariant |s.topics| == i
      invariant if ok then ptr <= |buffer| && ReadSubs(v5, buffer[ptr..], count, s) == whole else whole == Bad
      decreases count - i, ok
    {
      var t;
      ok, t, ptr := RestoreSub(buffer, ptr, v5, count, s);
      if ok {
        s := t;
        i := i + 1;
      }
    }
  }

  method RestoreTopics(buffer: seq<byte>, start: nat, count: int) returns (ok: bool, topics: seq<seq<byte>>, ptr: nat)
    requires start <= |buffer| && !ReadTopics(buffer[start..], count, []).Overrun?
    ensures var r := ReadTopics(buffer[start..], count, []);
            if r.Ok? then ok && topics == r.value && ptr <= |buffer| && buffer[ptr..] == r.rest else !ok
  {
    ghost var whole := ReadTopics(buffer[start..], count, []);
    ptr, topics, ok := start, [], true;
    var i := 0;
    while i < count
      invariant ptr <= |buffer| && |topics| == i
      invariant ReadTopics(buffer[ptr..], count, topics) == whole
    {
      ghost var d := buffer[ptr..];
      var size := StrNLen(buffer, ptr);
      size := size + 1;
      if size == |buffer| - ptr {
        return false, topics, ptr;
      }
      topics := topics + [buffer[ptr..][..size - 1]];
      ptr := ptr + size;
      assert buffer[ptr..] == d[size..];
      i := i + 1;
    }
  }

  method RestorePublish(buffer: seq<byte>, start: nat, token: int, first: bool) returns (ok: bool, c: Command, ptr: nat)
    requires start <= |buffer| && !ReadPublish(token, first, buffer[start..]).Overrun?
    ensures var r := ReadPublish(token, first, buffer[start..]);
            if r.Ok? then ok && c == r.value && ptr <= |buffer| && buffer[ptr..] == r.rest else !ok
  {
    hide ReadPayload;
    c := Publish(token, [], 0, [], 0, 0, []);
    ptr, ok := start, true;
    ghost var d := buffer[start..];
    var size := StrNLen(buffer, ptr);
    size := size + 1;
    if size == |buffer| - ptr {
      return false, c, ptr;
    }
    if !first {
      c := c.(topic := buffer[ptr..][..size - 1]);
    }
    ptr := ptr + size;
    if ptr > |buffer| {
      return false, c, ptr;
    }
    assert buffer[ptr..] == d[size..];
    ok, c, ptr := RestorePayload(buffer, ptr, token, first, c.topic);
  }

  method RestorePayload(buffer: seq<byte>, start: nat, token: int, first: bool, topic: seq<byte>)
    returns (ok: bool, c: Command, ptr: nat)
    requires start <= |buffer| && !ReadPayload(token, first, topic, buffer[start..]).Overrun?
    ensures var r := ReadPayload(token, first, topic, buffer[start..]);
            if r.Ok? then ok && c == r.value && ptr <= |buffer| && buffer[ptr..] == r.rest else !ok
  {
    hide ReadLe4;
    c := Publish(token, topic, 0, [], 0, 0, []);
    ptr, ok := start, true;
    ghost var p := buffer[start..];
    if ptr + 4 > |buffer| {
      return false, c, ptr;
    }
    var size := ReadLe4(buffer[ptr..]);
    c := c.(payloadlen := size);
    ptr := ptr + 4;
    assert buffer[ptr..] == p[4..];
    if ptr + size > |buffer| {
      return false, c, ptr;
    }
    if !first {
      c := c.(payload := buffer[ptr..][..size]);
    }
    ptr := ptr + size;
    ghost var t := p[4..][size..];
    assert buffer[ptr..] == t;
    if ptr + 8 > |buffer| {
      return false, c, ptr;
    }
    c := c.(qos := ReadLe4(buffer[ptr..]));
    ptr := ptr + 4;
    assert buffer[ptr..] == t[4..];
    c := c.(retained := ReadLe4(buffer[ptr..]));
    ptr := ptr + 4;
    assert buffer[ptr..] == t[4..][4..];
  }

  /** MQTTAsync_restoreCommand, on records whose reading stays inside the buffer. */
  method RestoreCommand(buffer: seq<byte>, v5: bool, first: bool) returns (r: Read<Command>)
    requires !Restore(v5, first, buffer).Overrun?
    ensures r == Restore(v5, first, buffer)
  {
    hide ReadLe4, ReadSubs, ReadTopics, ReadPublish, ReadProperties;
    if |buffer| < 8 {
      return Bad;
    }
    var kind, token := ReadLe4(buffer), ReadLe4(buffer[4..]);
    var ptr := 8;
    var d := buffer[ptr..];
    assert d == buffer[4..][4..];
    var ok, c := true, Subscribe(token, NO_SUBS, []);
    if kind == SUBSCRIBE {
      if !first {
        if ptr + 4 > |buffer| {
          return Bad;
        }
        var count := ReadLe4(buffer[ptr..]);
        assert buffer[ptr + 4..] == d[4..];
        var s;
        ok, s, ptr := RestoreSubs(buffer, ptr + 4, v5, count);
        c := Subscribe(token, s, []);
      }
    } else if kind == UNSUBSCRIBE {
      c := Unsubscribe(token, [], []);
      if !first {
        if ptr + 4 > |buffer| {
          return Bad;
        }
        var count := ReadLe4(buffer[ptr..]);
        assert buffer[ptr + 4..] == d[4..];
        var topics;
        ok, topics, ptr := RestoreTopics(buffer, ptr + 4, count);
        c := Unsubscribe(token, topics, []);
      }
    } else if kind == PUBLISH {
      ok, c, ptr := RestorePublish(buffer, ptr, token, first);
    } else {
      ok := false;
    }
    if !ok {
      return Bad;
    }
    if !first && v5 {
      var ps := ReadProperties(buffer[ptr..]);
      if !ps.Ok? {
        return Bad;
      }
      c := c.(props := ps.value);
    }
    r := Ok(c, []);
  }
}
