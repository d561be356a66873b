/** Two clients, the sender's and the receiver's handlers, over two FIFO channels that a connection drop empties.
    Every QoS 2 message is delivered exactly once (section 4.3.3 of MQTT 3.1.1 and MQTT 5.0), over every run of
    publish calls, reads, retries, drops and restarts of either side. */
module Delivery {
  import opened MsgId
  import opened Session
  import opened Recovery
  import opened Sequences

  datatype System = System(
    sender: Session, receiver: Session,
    toReceiver: seq<Packet>, toSender: seq<Packet>,
    published: seq<Entry>)

  datatype Step =
    | PublishCall(topic: seq<int>, payload: seq<int>, qos: int, retain: bool)
    | ReceiverReads
    | SenderReads
    | RetryPass(due: set<nat>)
    | Drop
    | SenderRestarts(keys: seq<Key>)
    | ReceiverRestarts(keys: seq<Key>)

  const START := System(FRESH, FRESH, [], [], [])

  // ---- the steps

  ghost predicate Enabled(s: System, step: Step) {
    match step
    case PublishCall(_, _, qos, _) =>
      qos == 0 || ((qos == 1 || qos == 2) && Assign(s.sender.msgID, Ids(s.sender.outbound)) != 0)
    case ReceiverReads => s.toReceiver != [] && (s.toReceiver[0].Publish? || s.toReceiver[0].Pubrel?)
    case SenderReads => s.toSender != [] && IsAck(s.toSender[0])
    case SenderRestarts(keys) => Listing(keys, s.sender.store) && forall k :: k in s.sender.store ==> k in keys
    case ReceiverRestarts(keys) => Listing(keys, s.receiver.store) && forall k :: k in s.receiver.store ==> k in keys
    case _ => true
  }

  function ReceiverHandles(r: Session, v5: bool, p: Packet): Effect
    requires p.Publish? || p.Pubrel?
  {
    if p.Publish? then HandlePublish(r, v5, p) else HandlePubrel(r, v5, p.msgid)
  }

  predicate IsAck(p: Packet) {
    p.Puback? || p.Pubrec? || p.Pubcomp?
  }

  function SenderHandles(s: Session, v5: bool, p: Packet): Effect
    requires IsAck(p)
  {
    match p
    case Puback(id) => Effect(HandlePuback(s, id), [])
    case Pubrec(id, rc) => HandlePubrec(s, v5, id, rc)
    case Pubcomp(id) => Effect(HandlePubcomp(s, id), [])
  }

  /** A restarted client has what its store gives back; what it had delivered stays delivered. */
  function Restart(s: Session, v5: bool, keys: seq<Key>): Session
    requires Listing(keys, s.store)
  {
    var r := RestorePackets(s.store, v5, keys);
    Session(r.outbound, r.inbound, 0, r.store, s.delivered)
  }

  ghost function Do(s: System, v5: bool, step: Step): System
    requires Enabled(s, step)
  {
    match step
    case PublishCall(topic, payload, qos, retain) =>
      var c := Content(|s.published|, topic, payload);
      var e := StartPublish(s.sender, v5, c, qos, retain, Assign(s.sender.msgID, Ids(s.sender.outbound)));
      s.(sender := e.s, toReceiver := s.toReceiver + e.wire, published := s.published + [Entry(c, qos, retain)])
    case ReceiverReads =>
      var e := ReceiverHandles(s.receiver, v5, s.toReceiver[0]);
      s.(receiver := e.s, toReceiver := s.toReceiver[1..], toSender := s.toSender + e.wire)
    case SenderReads =>
      var e := SenderHandles(s.sender, v5, s.toSender[0]);
      s.(sender := e.s, toSender := s.toSender[1..], toReceiver := s.toReceiver + e.wire)
    case RetryPass(due) =>
      var e := Retry(s.sender, v5, due);
      s.(sender := e.s, toReceiver := s.toReceiver + e.wire)
    case Drop => s.(toReceiver := [], toSender := [])
    case SenderRestarts(keys) => s.(sender := Restart(s.sender, v5, keys), toReceiver := [], toSender := [])
    case ReceiverRestarts(keys) => s.(receiver := Restart(s.receiver, v5, keys), toReceiver := [], toSender := [])
  }

  ghost predicate Run(v5: bool, states: seq<System>, steps: seq<Step>) {
    && |states| == |steps| + 1 && states[0] == START
    && forall k :: 0 <= k < |steps| ==> Enabled(states[k], steps[k]) && states[k + 1] == Do(states[k], v5, steps[k])
  }

  // ---- what is in the channels for one id

  datatype Tag = Pub | Rel | Rec | Comp

  predicate Is(p: Packet, t: Tag, id: int) {
    match t
    case Pub => p.Publish? && p.qos == 2 && p.msgid == id
    case Rel => p.Pubrel? && p.msgid == id
    case Rec => p.Pubrec? && p.msgid == id
    case Comp => p.Pubcomp? && p.msgid == id
  }

  ghost predicate Has(ch: seq<Packet>, t: Tag, id: int) {
    exists k :: 0 <= k < |ch| && Is(ch[k], t, id)
  }

  /** No t behind a u. */
  ghost predicate NoneBehind(ch: seq<Packet>, t: Tag, u: Tag, id: int) {
    forall a, b :: 0 <= a < b < |ch| && Is(ch[a], u, id) ==> !Is(ch[b], t, id)
  }

  /** Every QoS 2 PUBLISH with m's id is m. */
  ghost predicate PubsAre(ch: seq<Packet>, m: Message) {
    forall k :: 0 <= k < |ch| && Is(ch[k], Pub, m.msgid) ==> ch[k].content == m.body && ch[k].retain == m.retain
  }

  lemma Pop(ch: seq<Packet>, id: int)
    requires ch != []
    ensures forall t :: Has(ch, t, id) <==> Is(ch[0], t, id) || Has(ch[1..], t, id)
    ensures forall t, u :: NoneBehind(ch, t, u, id) <==>
      NoneBehind(ch[1..], t, u, id) && (Is(ch[0], u, id) ==> !Has(ch[1..], t, id))
    ensures forall m :: PubsAre(ch, m) ==> PubsAre(ch[1..], m)
  {
    var tl := ch[1..];
    assert forall k :: 0 <= k < |tl| ==> tl[k] == ch[k + 1];
    forall t ensures Has(ch, t, id) <==> Is(ch[0], t, id) || Has(tl, t, id) {
      if Has(ch, t, id) {
        var k :| 0 <= k < |ch| && Is(ch[k], t, id);
        assert k > 0 ==> Is(tl[k - 1], t, id);
      }
    }
    forall t, u
      ensures NoneBehind(ch, t, u, id) <==> NoneBehind(tl, t, u, id) && (Is(ch[0], u, id) ==> !Has(tl, t, id))
    {
      if NoneBehind(tl, t, u, id) && (Is(ch[0], u, id) ==> !Has(tl, t, id)) {
        forall a, b | 0 <= a < b < |ch| && Is(ch[a], u, id) ensures !Is(ch[b], t, id) {
          assert ch[b] == tl[b - 1];
          assert a > 0 ==> ch[a] == tl[a - 1];
        }
      }
    }
  }

  lemma Push(ch: seq<Packet>, p: Packet, id: int)
    ensures forall t :: Has(ch + [p], t, id) <==> Is(p, t, id) || Has(ch, t, id)
    ensures forall t, u :: NoneBehind(ch + [p], t, u, id) <==>
      NoneBehind(ch, t, u, id) && (Is(p, t, id) ==> !Has(ch, u, id))
    ensures forall m :: PubsAre(ch + [p], m) <==>
      PubsAre(ch, m) && (Is(p, Pub, m.msgid) ==> p.content == m.body && p.retain == m.retain)
  {
    var l := ch + [p];
    assert l[|ch|] == p && forall k :: 0 <= k < |ch| ==> l[k] == ch[k];
    forall t ensures Has(l, t, id) <==> Is(p, t, id) || Has(ch, t, id) {
      if Has(ch, t, id) {
        var k :| 0 <= k < |ch| && Is(ch[k], t, id);
        assert Is(l[k], t, id);
      }
    }
    forall t, u ensures NoneBehind(l, t, u, id) <==> NoneBehind(ch, t, u, id) && (Is(p, t, id) ==> !Has(ch, u, id)) {
      if NoneBehind(l, t, u, id) {
        forall a, b | 0 <= a < b < |ch| && Is(ch[a], u, id) ensures !Is(ch[b], t, id) {
          assert Is(l[a], u, id);
        }
        forall a | 0 <= a < |ch| && Is(p, t, id) ensures !Is(ch[a], u, id) {
          assert Is(l[|ch|], t, id);
        }
      }
    }
  }

  // ---- the invariant

  /** The receiver's record stands for m; in version 5 its body has been given away. */
  predicate StandsFor(v5: bool, r: Message, m: Message) {
    r.retain == m.retain && (v5 || r.body == m.body)
  }

  /** One message id: what sender, receiver and both channels may hold. Everything left over from an earlier
      message with the same id, the stale PUBREL and PUBCOMP, is in front of everything of the current one. */
  ghost predicate IdInv(v5: bool, o: Found, r: Found, toR: seq<Packet>, toS: seq<Packet>, id: int) {
    if o.Some? && o.m.qos == 2 then
      && PubsAre(toR, o.m)
      && (r.Some? ==> StandsFor(v5, r.m, o.m))
      && if o.m.next == PubRec then
           && NoneBehind(toR, Rel, Pub, id) && NoneBehind(toS, Comp, Rec, id)
           && (r.Some? ==> !Has(toR, Rel, id))
           && (r.None? ==> !Has(toS, Rec, id))
         else
           && NoneBehind(toR, Pub, Rel, id) && NoneBehind(toS, Rec, Comp, id)
           && (r.Some? ==> !Has(toS, Comp, id))
           && (r.None? ==> !Has(toR, Pub, id))
    else
      !Has(toR, Pub, id) && !Has(toS, Rec, id) && r.None?
  }

  ghost predicate IdsInv(v5: bool, s: System) {
    forall id :: IdInv(v5, Find(s.sender.outbound, id), Find(s.receiver.inbound, id), s.toReceiver, s.toSender, id)
  }

  /** The entry is what was published under its serial number. */
  predicate Genuine(published: seq<Entry>, e: Entry) {
    e.content.Content? && e.content.serial < |published| && published[e.content.serial] == e
  }

  ghost predicate OutboundInv(out: seq<Message>, published: seq<Entry>) {
    && DistinctIds(out)
    && (forall m :: m in out ==> OutboundForm(m) && IsId(m.msgid) && Genuine(published, Entry(m.body, m.qos, m.retain)))
    && (forall a, b :: a in out && b in out && a.body == b.body ==> a == b)
  }

  ghost predicate InboundInv(inb: seq<Message>) {
    DistinctIds(inb) && forall m :: m in inb ==> m.qos == 2 && m.next == PubRel
  }

  ghost predicate ListsInv(s: System) {
    && s.sender.inbound == [] && s.receiver.outbound == []
    && 0 <= s.sender.msgID <= MAX_MSG_ID
    && OutboundInv(s.sender.outbound, s.published) && InboundInv(s.receiver.inbound)
  }

  ghost predicate ToReceiverInv(ch: seq<Packet>, published: seq<Entry>) {
    forall p :: p in ch ==> p.Pubrel? || (p.Publish? && Genuine(published, Entry(p.content, p.qos, p.retain)))
  }

  ghost predicate ToSenderInv(ch: seq<Packet>) {
    forall p :: p in ch ==> p.Puback? || p.Pubcomp? || (p.Pubrec? && p.rc == 0)
  }

  ghost predicate ChannelsInv(s: System) {
    ToReceiverInv(s.toReceiver, s.published) && ToSenderInv(s.toSender)
  }

  /** How often the QoS 2 message with this serial number has been handed to the application. */
  function Count(log: seq<Entry>, serial: nat): nat {
    if log == [] then 0
    else
      var e := log[|log| - 1];
      Count(log[..|log| - 1], serial) + if e.qos == 2 && e.content.Content? && e.content.serial == serial then 1 else 0
  }

  /** An outbound message has been delivered: version 5 delivers at the first PUBLISH, 3.1.1 at PUBREL. */
  predicate Done(v5: bool, m: Message, r: Found) {
    if m.next == PubRec then v5 && r.Some? else v5 || r.None?
  }

  ghost predicate InFlight(out: seq<Message>, serial: nat) {
    exists m :: m in out && m.body.Content? && m.body.serial == serial
  }

  ghost predicate Accounts(v5: bool, out: seq<Message>, inb: seq<Message>, log: seq<Entry>, published: seq<Entry>) {
    && (forall e :: e in log ==> Genuine(published, e))
    && (forall n: nat :: |published| <= n ==> Count(log, n) == 0)
    && (forall n: nat :: n < |published| && published[n].qos == 2 && !InFlight(out, n) ==> Count(log, n) == 1)
    && (forall m :: m in out && m.qos == 2 ==>
          m.body.Content? && Count(log, m.body.serial) == if Done(v5, m, Find(inb, m.msgid)) then 1 else 0)
  }

  ghost predicate AccountsInv(v5: bool, s: System) {
    Accounts(v5, s.sender.outbound, s.receiver.inbound, s.receiver.delivered, s.published)
  }

  ghost predicate StoresInv(v5: bool, s: System) {
    && Mirror(v5, s.sender.outbound, s.sender.inbound, s.sender.store)
    && Mirror(v5, s.receiver.outbound, s.receiver.inbound, s.receiver.store)
  }

  ghost predicate Inv(v5: bool, s: System) {
    ListsInv(s) && ChannelsInv(s) && IdsInv(v5, s) && AccountsInv(v5, s) && StoresInv(v5, s)
  }

  // ---- one id, one packet: the transitions of the handshake

  lemma PublishedInv(v5: bool, r: Found, toR: seq<Packet>, toS: seq<Packet>, m: Message, p: Packet)
    requires IdInv(v5, None, r, toR, toS, m.msgid)
    requires m.qos == 2 && m.next == PubRec && p == Publish(false, 2, m.retain, m.msgid, m.body)
    ensures IdInv(v5, Some(m), r, toR + [p], toS, m.msgid)
  {
    Push(toR, p, m.msgid);
    assert !Has(toR, Pub, m.msgid);
    assert PubsAre(toR, m);
    assert NoneBehind(toR, Rel, Pub, m.msgid);
    assert NoneBehind(toS, Comp, Rec, m.msgid);
  }

  lemma PubReadInv(v5: bool, o: Found, r: Found, toR: seq<Packet>, toS: seq<Packet>, id: int, r': Message, ack: Packet)
    requires toR != [] && Is(toR[0], Pub, id) && Is(ack, Rec, id)
    requires IdInv(v5, o, r, toR, toS, id)
    requires o.Some? ==> o.m.msgid == id
    requires r'.retain == toR[0].retain && (v5 || r'.body == toR[0].content)
    ensures IdInv(v5, o, Some(r'), toR[1..], toS + [ack], id)
    ensures o.Some? && o.m.qos == 2 && (o.m.next != PubRec ==> r.Some?)
    ensures toR[0].content == o.m.body && toR[0].retain == o.m.retain
  {
    Pop(toR, id);
    Push(toS, ack, id);
  }

  lemma RelReadInv(v5: bool, o: Found, r: Found, toR: seq<Packet>, toS: seq<Packet>, id: int, ack: Packet)
    requires toR != [] && Is(toR[0], Rel, id) && Is(ack, Comp, id)
    requires IdInv(v5, o, r, toR, toS, id)
    ensures IdInv(v5, o, None, toR[1..], toS + [ack], id)
    ensures r.Some? ==> o.Some? && o.m.qos == 2 && o.m.next != PubRec && StandsFor(v5, r.m, o.m)
  {
    Pop(toR, id);
    Push(toS, ack, id);
  }

  lemma RecReadInv(v5: bool, o: Found, r: Found, toR: seq<Packet>, toS: seq<Packet>, id: int, rel: Packet)
    requires toS != [] && Is(toS[0], Rec, id) && Is(rel, Rel, id)
    requires IdInv(v5, o, r, toR, toS, id)
    ensures o.Some? && o.m.qos == 2
    ensures IdInv(v5, Some(o.m.(next := PubComp)), r, toR + [rel], toS[1..], id)
    ensures o.m.next == PubRec ==> r.Some?
  {
    Pop(toS, id);
    Push(toR, rel, id);
  }

  lemma CompReadInv(v5: bool, o: Found, r: Found, toR: seq<Packet>, toS: seq<Packet>, id: int)
    requires toS != [] && Is(toS[0], Comp, id)
    requires IdInv(v5, o, r, toR, toS, id)
    ensures IdInv(v5, if o.Some? && o.m.qos == 2 && o.m.next != PubRec then None else o, r, toR, toS[1..], id)
    ensures o.Some? && o.m.qos == 2 && o.m.next != PubRec ==> r.None?
  {
    Pop(toS, id);
  }

  /** Packets of other ids, and QoS 0 and 1 traffic of this one, change nothing. */
  lemma UnrelatedInv(v5: bool, o: Found, r: Found, toR: seq<Packet>, toS: seq<Packet>, id: int, p: Packet)
    requires forall t :: !Is(p, t, id)
    requires o.Some? ==> o.m.msgid == id
    ensures IdInv(v5, o, r, toR, toS, id) ==> IdInv(v5, o, r, toR + [p], toS, id) && IdInv(v5, o, r, toR, toS + [p], id)
    ensures toR != [] && toR[0] == p && IdInv(v5, o, r, toR, toS, id) ==> IdInv(v5, o, r, toR[1..], toS, id)
    ensures toS != [] && toS[0] == p && IdInv(v5, o, r, toR, toS, id) ==> IdInv(v5, o, r, toR, toS[1..], id)
  {
    Push(toR, p, id);
    Push(toS, p, id);
    assert !Is(p, Pub, id);
    if toR != [] { Pop(toR, id); }
    if toS != [] { Pop(toS, id); }
  }

  lemma ResentInv(v5: bool, m: Message, r: Found, toR: seq<Packet>, toS: seq<Packet>, p: Packet)
    requires IdInv(v5, Some(m), r, toR, toS, m.msgid) && Resend(m) == [p]
    ensures IdInv(v5, Some(m), r, toR + [p], toS, m.msgid)
  {
    Push(toR, p, m.msgid);
  }

  // ---- every step keeps the invariant

  lemma CountAppend(log: seq<Entry>, e: Entry, n: nat)
    ensures Count(log + [e], n) ==
      Count(log, n) + if e.qos == 2 && e.content.Content? && e.content.serial == n then 1 else 0
  {
    assert (log + [e])[..|log|] == log;
  }

  function Published(s: System, step: Step): Message
    requires step.PublishCall?
  {
    Message(Assign(s.sender.msgID, Ids(s.sender.outbound)), step.qos, step.retain,
            if step.qos == 2 then PubRec else Unset,
            Content(|s.published|, step.topic, step.payload))
  }

  /** The PUBLISH that a publish call sends. */
  function PublishSent(s: System, step: Step): Packet
    requires step.PublishCall?
  {
    var m := Published(s, step);
    Publish(false, m.qos, m.retain, if m.qos == 0 then 0 else m.msgid, m.body)
  }

  lemma Publishes(v5: bool, s: System, step: Step)
    requires Enabled(s, step) && step.PublishCall?
    ensures var t, m := Do(s, v5, step), Published(s, step);
            && t.sender.outbound == (if step.qos == 0 then s.sender.outbound else s.sender.outbound + [m])
            && t.toReceiver == s.toReceiver + [PublishSent(s, step)] && t.toSender == s.toSender
            && t.receiver == s.receiver
  {
  }

  /** The list after a publish call: one more message at most, under an id that was free. */
  lemma PublishedFind(s: System, step: Step)
    requires ListsInv(s) && Enabled(s, step) && step.PublishCall? && step.qos != 0
    ensures var out, m := s.sender.outbound, Published(s, step);
            && m.msgid != 0 && Find(out, m.msgid) == None
            && forall i :: Find(out + [m], i) == if i == m.msgid then Some(m) else Find(out, i)
  {
    var m := Published(s, step);
    AssignSpec(s.sender.msgID, Ids(s.sender.outbound));
    FindMember(s.sender.outbound, m.msgid);
    FindAppend(s.sender.outbound, m);
  }

  lemma PublishIds(v5: bool, s: System, step: Step)
    requires ListsInv(s) && IdsInv(v5, s) && step.PublishCall? && Enabled(s, step)
    ensures IdsInv(v5, Do(s, v5, step))
  {
    var s' := Do(s, v5, step);
    var m := Published(s, step);
    AssignSpec(s.sender.msgID, Ids(s.sender.outbound));
    if step.qos != 0 { FindAppend(s.sender.outbound, m); }
    var p := if step.qos == 0 then Publish(false, 0, step.retain, 0, m.body)
             else Publish(false, step.qos, step.retain, m.msgid, m.body);
    assert s'.toReceiver == s.toReceiver + [p];
    forall i
      ensures IdInv(v5, Find(s'.sender.outbound, i), Find(s'.receiver.inbound, i), s'.toReceiver, s'.toSender, i)
    {
      FindMember(s.sender.outbound, i);
      assert IdInv(v5, Find(s.sender.outbound, i), Find(s.receiver.inbound, i), s.toReceiver, s.toSender, i);
      if i == m.msgid && step.qos == 2 {
        PublishedInv(v5, Find(s.receiver.inbound, i), s.toReceiver, s.toSender, m, p);
      } else {
        UnrelatedInv(v5, Find(s'.sender.outbound, i), Find(s.receiver.inbound, i), s.toReceiver, s.toSender, i, p);
      }
    }
  }

  lemma PublishLists(v5: bool, s: System, step: Step)
    requires ListsInv(s) && ChannelsInv(s) && step.PublishCall? && Enabled(s, step)
    ensures ListsInv(Do(s, v5, step)) && ChannelsInv(Do(s, v5, step))
  {
    var s' := Do(s, v5, step);
    var m := Published(s, step);
    AssignSpec(s.sender.msgID, Ids(s.sender.outbound));
    FindAppend(s.sender.outbound, m);
    assert forall e :: Genuine(s.published, e) ==> Genuine(s'.published, e);
    assert s'.sender.outbound == if step.qos == 0 then s.sender.outbound else s.sender.outbound + [m];
    forall a | a in s.sender.outbound ensures a.body != m.body {
      assert Genuine(s.published, Entry(a.body, a.qos, a.retain));
    }
  }

  lemma PublishAccounts(v5: bool, s: System, step: Step)
    requires ListsInv(s) && IdsInv(v5, s) && AccountsInv(v5, s) && step.PublishCall? && Enabled(s, step)
    ensures AccountsInv(v5, Do(s, v5, step))
  {
    var s' := Do(s, v5, step);
    var m := Published(s, step);
    AssignSpec(s.sender.msgID, Ids(s.sender.outbound));
    assert forall e :: Genuine(s.published, e) ==> Genuine(s'.published, e);
    if step.qos != 0 {
      FindMember(s.sender.outbound, m.msgid);
      assert IdInv(v5, None, Find(s.receiver.inbound, m.msgid), s.toReceiver, s.toSender, m.msgid);
      assert s'.sender.outbound == s.sender.outbound + [m];
      assert m in s'.sender.outbound;
      assert forall x :: x in s'.sender.outbound <==> x in s.sender.outbound || x == m;
    }
  }

  lemma MirrorAppend(v5: bool, out: seq<Message>, inb: seq<Message>, store: Store, m: Message, p: Packet)
    requires Mirror(v5, out, inb, store) && DistinctIds(out) && m.msgid !in Ids(out)
    requires OutboundForm(m) && m.next != PubComp && p == Publish(false, m.qos, m.retain, m.msgid, m.body)
    ensures Mirror(v5, out + [m], inb, store[Key(Sent, v5, m.msgid) := p])
  {
    var out', store' := out + [m], store[Key(Sent, v5, m.msgid) := p];
    assert m in out' && forall x :: x in out' <==> x in out || x == m;
    assert forall i :: i in Ids(out') <==> i in Ids(out) || i == m.msgid;
    forall x | x in out' ensures RecordOf(store', Key(Sent, v5, x.msgid), x) {
      if x != m {
        assert x.msgid in Ids(out);
        assert RecordOf(store, Key(Sent, v5, x.msgid), x);
      }
    }
    forall x | x in inb ensures RecordOf(store', Key(Received, v5, x.msgid), Strip(v5, x)) {
      assert RecordOf(store, Key(Received, v5, x.msgid), Strip(v5, x));
    }
  }

  lemma PublishKeepsInv(v5: bool, s: System, step: Step)
    requires Inv(v5, s) && step.PublishCall? && Enabled(s, step)
    ensures Inv(v5, Do(s, v5, step))
  {
    PublishLists(v5, s, step);
    PublishIds(v5, s, step);
    PublishAccounts(v5, s, step);
    AssignSpec(s.sender.msgID, Ids(s.sender.outbound));
    if step.qos != 0 {
      var m := Published(s, step);
      MirrorAppend(v5, s.sender.outbound, s.sender.inbound, s.sender.store, m,
                   Publish(false, m.qos, m.retain, m.msgid, m.body));
    }
  }

  // ---- the receiver reads a packet

  lemma ReceiverHandlesLists(v5: bool, r: Session, p: Packet)
    requires InboundInv(r.inbound) && (p.Publish? || p.Pubrel?)
    ensures InboundInv(ReceiverHandles(r, v5, p).s.inbound)
  {
    var inb := r.inbound;
    var k := IndexOf(inb, p.msgid);
    var inb' := ReceiverHandles(r, v5, p).s.inbound;
    if p.Publish? && p.qos == 2 {
      var m := Message(p.msgid, 2, p.retain, PubRel, if v5 && k == |inb| then NoContent else p.content);
      assert inb' == if k < |inb| then inb[k := m] else inb + [m];
      hide ReceiverHandles;
      InboundStored(inb, k, m);
    } else if p.Pubrel? && k < |inb| {
      assert inb' == Without(inb, k);
      hide ReceiverHandles, Find;
      FindRemove(inb, k);
      WithoutMembers(inb, k);
    }
  }

  lemma InboundStored(inb: seq<Message>, k: nat, m: Message)
    requires InboundInv(inb) && k == IndexOf(inb, m.msgid) && m.qos == 2 && m.next == PubRel
    ensures InboundInv(if k < |inb| then inb[k := m] else inb + [m])
  {
    if k < |inb| {
      FindUpdate(inb, k, m);
      hide Find;
    } else {
      FindMember(inb, m.msgid);
      FindAppend(inb, m);
      hide Find;
    }
  }

  lemma ReceiverAnswers(v5: bool, r: Session, p: Packet)
    requires p.Publish? || p.Pubrel?
    ensures ReceiverHandles(r, v5, p).s.outbound == r.outbound && ToSenderInv(ReceiverHandles(r, v5, p).wire)
  {
  }

  lemma ReceiverLists(v5: bool, s: System)
    requires ListsInv(s) && ChannelsInv(s) && s.toReceiver != [] && Enabled(s, ReceiverReads)
    ensures ListsInv(Do(s, v5, ReceiverReads)) && ChannelsInv(Do(s, v5, ReceiverReads))
    ensures s.toReceiver[0].Publish? || s.toReceiver[0].Pubrel?
  {
    assert forall q :: q in s.toReceiver[1..] ==> q in s.toReceiver;
    ReceiverHandlesLists(v5, s.receiver, s.toReceiver[0]);
    ReceiverAnswers(v5, s.receiver, s.toReceiver[0]);
    hide ReceiverHandles, InboundInv, OutboundInv, Genuine;
  }

  lemma ReceiverPubIds(v5: bool, s: System)
    requires ListsInv(s) && IdsInv(v5, s) && Enabled(s, ReceiverReads) &&
      Is(s.toReceiver[0], Pub, s.toReceiver[0].msgid)
    ensures IdsInv(v5, Do(s, v5, ReceiverReads))
  {
    var p, inb := s.toReceiver[0], s.receiver.inbound;
    var s' := Do(s, v5, ReceiverReads);
    var k := IndexOf(inb, p.msgid);
    var m := Message(p.msgid, 2, p.retain, PubRel, if v5 && k == |inb| then NoContent else p.content);
    var ack := Pubrec(p.msgid, 0);
    if k < |inb| { FindUpdate(inb, k, m); } else { FindMember(inb, p.msgid); FindAppend(inb, m); }
    assert s'.toSender == s.toSender + [ack];
    forall i
      ensures IdInv(v5, Find(s'.sender.outbound, i), Find(s'.receiver.inbound, i), s'.toReceiver, s'.toSender, i)
    {
      var o, r := Find(s.sender.outbound, i), Find(inb, i);
      assert IdInv(v5, o, r, s.toReceiver, s.toSender, i);
      if i == p.msgid {
        PubReadInv(v5, o, r, s.toReceiver, s.toSender, i, m, ack);
      } else {
        UnrelatedInv(v5, o, r, s.toReceiver, s.toSender, i, p);
        UnrelatedInv(v5, o, r, s.toReceiver[1..], s.toSender, i, ack);
      }
    }
  }

  lemma ReceiverRelIds(v5: bool, s: System)
    requires ListsInv(s) && IdsInv(v5, s) && Enabled(s, ReceiverReads) && s.toReceiver[0].Pubrel?
    ensures IdsInv(v5, Do(s, v5, ReceiverReads))
  {
    var p, inb := s.toReceiver[0], s.receiver.inbound;
    var s' := Do(s, v5, ReceiverReads);
    var k := IndexOf(inb, p.msgid);
    var ack := Pubcomp(p.msgid);
    if k < |inb| { FindRemove(inb, k); }
    assert s'.toSender == s.toSender + [ack];
    forall i
      ensures IdInv(v5, Find(s'.sender.outbound, i), Find(s'.receiver.inbound, i), s'.toReceiver, s'.toSender, i)
    {
      var o, r := Find(s.sender.outbound, i), Find(inb, i);
      assert IdInv(v5, o, r, s.toReceiver, s.toSender, i);
      if i == p.msgid {
        RelReadInv(v5, o, r, s.toReceiver, s.toSender, i, ack);
      } else {
        UnrelatedInv(v5, o, r, s.toReceiver, s.toSender, i, p);
        UnrelatedInv(v5, o, r, s.toReceiver[1..], s.toSender, i, ack);
      }
    }
  }

  lemma ReceiverIds(v5: bool, s: System)
    requires ListsInv(s) && IdsInv(v5, s) && Enabled(s, ReceiverReads)
    ensures IdsInv(v5, Do(s, v5, ReceiverReads))
  {
    var p := s.toReceiver[0];
    if p.Pubrel? {
      ReceiverRelIds(v5, s);
    } else if p.qos == 2 {
      ReceiverPubIds(v5, s);
    } else {
      var s' := Do(s, v5, ReceiverReads);
      forall i
        ensures IdInv(v5, Find(s'.sender.outbound, i), Find(s'.receiver.inbound, i), s'.toReceiver, s'.toSender, i)
      {
        var o, r := Find(s.sender.outbound, i), Find(s.receiver.inbound, i);
        assert IdInv(v5, o, r, s.toReceiver, s.toSender, i);
        UnrelatedInv(v5, o, r, s.toReceiver, s.toSender, i, p);
        UnrelatedInv(v5, o, r, s.toReceiver[1..], s.toSender, i, Puback(p.msgid));
        assert s'.toSender == s.toSender || s'.toSender == s.toSender + [Puback(p.msgid)];
      }
    }
  }

  lemma ReceiverAccountsPub(v5: bool, s: System)
    requires ListsInv(s) && IdsInv(v5, s) && AccountsInv(v5, s) && ChannelsInv(s)
    requires s.toReceiver != [] && Is(s.toReceiver[0], Pub, s.toReceiver[0].msgid)
    ensures AccountsInv(v5, Do(s, v5, ReceiverReads))
  {
    var p := s.toReceiver[0];
    var id := p.msgid;
    var s' := Do(s, v5, ReceiverReads);
    var inb := s.receiver.inbound;
    var k := IndexOf(inb, id);
    var m := Message(id, 2, p.retain, PubRel, if v5 && k == |inb| then NoContent else p.content);
    if k < |inb| { FindUpdate(inb, k, m); } else { FindMember(inb, id); FindAppend(inb, m); }
    var o := Find(s.sender.outbound, id);
    FindMember(s.sender.outbound, id);
    assert IdInv(v5, o, Find(inb, id), s.toReceiver, s.toSender, id);
    PubReadInv(v5, o, Find(inb, id), s.toReceiver, s.toSender, id, m, Pubrec(id, 0));
    assert p in s.toReceiver;
    hide Accounts;
    DeliveredOnce(v5, s, s'.receiver.delivered, s'.receiver.inbound, o.m, v5 && k == |inb|);
  }

  lemma ReceiverAccountsRel(v5: bool, s: System)
    requires ListsInv(s) && IdsInv(v5, s) && AccountsInv(v5, s) && ChannelsInv(s)
    requires s.toReceiver != [] && s.toReceiver[0].Pubrel?
    ensures AccountsInv(v5, Do(s, v5, ReceiverReads))
  {
    var id := s.toReceiver[0].msgid;
    var s' := Do(s, v5, ReceiverReads);
    var inb := s.receiver.inbound;
    var k := IndexOf(inb, id);
    if k < |inb| {
      FindRemove(inb, k);
      var o := Find(s.sender.outbound, id);
      FindMember(s.sender.outbound, id);
      assert IdInv(v5, o, Find(inb, id), s.toReceiver, s.toSender, id);
      RelReadInv(v5, o, Find(inb, id), s.toReceiver, s.toSender, id, Pubcomp(id));
      hide Accounts;
      DeliveredOnce(v5, s, s'.receiver.delivered, s'.receiver.inbound, o.m, !v5);
    }
  }

  /** The receiver's record of o.m changes, and the message is handed over exactly if that makes it done. */
  lemma DeliveredOnce(v5: bool, s: System, log: seq<Entry>, inb: seq<Message>, m: Message, now: bool)
    requires ListsInv(s) && AccountsInv(v5, s) && m in s.sender.outbound && m.qos == 2
    requires log == if now then s.receiver.delivered + [Entry(m.body, 2, m.retain)] else s.receiver.delivered
    requires forall i :: i != m.msgid ==> Find(inb, i) == Find(s.receiver.inbound, i)
    requires now <==> (Done(v5, m, Find(inb, m.msgid)) && !Done(v5, m, Find(s.receiver.inbound, m.msgid)))
    requires Done(v5, m, Find(s.receiver.inbound, m.msgid)) ==> Done(v5, m, Find(inb, m.msgid))
    ensures forall r: Session :: r.delivered == log && r.inbound == inb ==> AccountsInv(v5, s.(receiver := r))
  {
    forall n: nat ensures Count(log, n) == Count(s.receiver.delivered, n) + if now && m.body.serial == n then 1 else 0 {
      CountAppend(s.receiver.delivered, Entry(m.body, 2, m.retain), n);
    }
    assert Genuine(s.published, Entry(m.body, 2, m.retain));
    forall a | a in s.sender.outbound && a.qos == 2 && a != m
      ensures a.msgid != m.msgid && a.body.serial != m.body.serial
    {
      assert Genuine(s.published, Entry(a.body, a.qos, a.retain));
    }
  }

  /** Accounts are of QoS 2 messages: a log with the same of these will do. */
  lemma SameCounts(v5: bool, out: seq<Message>, inb: seq<Message>, log: seq<Entry>, now: seq<Entry>,
                   published: seq<Entry>)
    requires Accounts(v5, out, inb, log, published) && forall n: nat :: Count(now, n) == Count(log, n)
    requires forall e :: e in now ==> Genuine(published, e)
    ensures Accounts(v5, out, inb, now, published)
  {
    hide InFlight, Done, Genuine, Find, Count;
  }

  lemma ReceiverAccountsOther(v5: bool, s: System)
    requires ChannelsInv(s) && AccountsInv(v5, s)
    requires s.toReceiver != [] && s.toReceiver[0].Publish? && s.toReceiver[0].qos < 2
    ensures AccountsInv(v5, Do(s, v5, ReceiverReads))
  {
    var p := s.toReceiver[0];
    var r' := Do(s, v5, ReceiverReads).receiver;
    assert p in s.toReceiver;
    var e := Entry(p.content, p.qos, p.retain);
    assert r'.inbound == s.receiver.inbound;
    assert r'.delivered == s.receiver.delivered || r'.delivered == s.receiver.delivered + [e];
    forall n: nat ensures Count(r'.delivered, n) == Count(s.receiver.delivered, n) {
      CountAppend(s.receiver.delivered, e, n);
    }
    assert forall x :: x in r'.delivered ==> Genuine(s.published, x);
    hide Accounts, Count, Genuine, ToReceiverInv, ToSenderInv;
    SameCounts(v5, s.sender.outbound, s.receiver.inbound, s.receiver.delivered, r'.delivered, s.published);
  }

  lemma ReceiverKeepsAccounts(v5: bool, s: System)
    requires ListsInv(s) && IdsInv(v5, s) && AccountsInv(v5, s) && ChannelsInv(s)
    requires Enabled(s, ReceiverReads)
    ensures AccountsInv(v5, Do(s, v5, ReceiverReads))
  {
    var p := s.toReceiver[0];
    assert p in s.toReceiver && (p.Publish? ==> p.qos > 2 ==> Do(s, v5, ReceiverReads).receiver == s.receiver);
    hide ListsInv, IdsInv, Accounts, Do;
    if p.Pubrel? {
      ReceiverAccountsRel(v5, s);
    } else if p.qos == 2 {
      ReceiverAccountsPub(v5, s);
    } else if p.qos < 2 {
      ReceiverAccountsOther(v5, s);
    }
  }

  lemma MirrorReceive(v5: bool, out: seq<Message>, inb: seq<Message>, store: Store, p: Packet, m: Message,
                      inb': seq<Message>)
    requires Mirror(v5, out, inb, store) && p.Publish? && p.qos == 2
    requires m.msgid == p.msgid && m.qos == 2 && m.next == PubRel && m.retain == p.retain && (v5 || m.body == p.content)
    requires m in inb' && forall x :: x in inb' ==> x == m || (x in inb && x.msgid != m.msgid)
    requires forall x :: x in inb && x.msgid != m.msgid ==> x in inb'
    ensures Mirror(v5, out, inb', store[Key(Received, v5, p.msgid) := p])
  {
    var store' := store[Key(Received, v5, p.msgid) := p];
    forall x | x in inb' ensures RecordOf(store', Key(Received, v5, x.msgid), Strip(v5, x)) {
      if x != m {
        assert RecordOf(store, Key(Received, v5, x.msgid), Strip(v5, x));
      }
    }
    forall x | x in out ensures RecordOf(store', Key(Sent, v5, x.msgid), x) {
      assert RecordOf(store, Key(Sent, v5, x.msgid), x);
    }
    forall i | i in Ids(inb) && i != m.msgid ensures i in Ids(inb') {
      var x :| x in inb && x.msgid == i;
      assert x in inb';
    }
  }

  lemma MirrorRelease(v5: bool, out: seq<Message>, inb: seq<Message>, store: Store, id: int, inb': seq<Message>)
    requires Mirror(v5, out, inb, store)
    requires forall x :: x in inb' <==> x in inb && x.msgid != id
    ensures Mirror(v5, out, inb', Unpersist(store, false, id))
  {
    var store' := Unpersist(store, false, id);
    forall x | x in inb' ensures RecordOf(store', Key(Received, v5, x.msgid), Strip(v5, x)) {
      assert RecordOf(store, Key(Received, v5, x.msgid), Strip(v5, x));
    }
    forall x | x in out ensures RecordOf(store', Key(Sent, v5, x.msgid), x) {
      assert RecordOf(store, Key(Sent, v5, x.msgid), x);
    }
    forall i | i in Ids(inb) && i != id ensures i in Ids(inb') {
      var x :| x in inb && x.msgid == i;
      assert x in inb';
    }
  }

  lemma WithoutMembers(ms: seq<Message>, k: nat)
    requires DistinctIds(ms) && k < |ms|
    ensures forall x :: x in Without(ms, k) <==> x in ms && x.msgid != ms[k].msgid
  {
    assert ms == ms[..k] + [ms[k]] + ms[k + 1..];
  }

  lemma UpdateMembers(ms: seq<Message>, k: nat, m: Message)
    requires DistinctIds(ms) && k < |ms| && m.msgid == ms[k].msgid
    ensures forall x :: x in ms[k := m] <==> x == m || (x in ms && x.msgid != m.msgid)
  {
    forall x ensures x in ms[k := m] <==> x == m || (x in ms && x.msgid != m.msgid) {
      assert ms[k := m][k] == m;
      if x in ms && x.msgid != m.msgid {
        var j :| 0 <= j < |ms| && ms[j] == x;
        assert ms[k := m][j] == x;
      }
    }
  }

  lemma PublishMirrors(v5: bool, r: Session, p: Packet)
    requires Mirror(v5, r.outbound, r.inbound, r.store) && InboundInv(r.inbound) && p.Publish? && p.qos == 2
    ensures var r' := HandlePublish(r, v5, p).s; Mirror(v5, r'.outbound, r'.inbound, r'.store)
  {
    hide Mirror;
    var r' := HandlePublish(r, v5, p).s;
    var k := IndexOf(r.inbound, p.msgid);
    var m := Message(p.msgid, 2, p.retain, PubRel, if v5 && k == |r.inbound| then NoContent else p.content);
    if k < |r.inbound| {
      UpdateMembers(r.inbound, k, m);
    } else {
      assert r'.inbound == r.inbound + [m];
    }
    MirrorReceive(v5, r.outbound, r.inbound, r.store, p, m, r'.inbound);
  }

  lemma PubrelMirrors(v5: bool, r: Session, id: int)
    requires Mirror(v5, r.outbound, r.inbound, r.store) && InboundInv(r.inbound)
    ensures var r' := HandlePubrel(r, v5, id).s; Mirror(v5, r'.outbound, r'.inbound, r'.store)
  {
    hide Mirror, Unpersist;
    var k := IndexOf(r.inbound, id);
    if k < |r.inbound| {
      WithoutMembers(r.inbound, k);
      MirrorRelease(v5, r.outbound, r.inbound, r.store, id, HandlePubrel(r, v5, id).s.inbound);
    }
  }

  lemma ReceiverMirrors(v5: bool, r: Session, p: Packet)
    requires InboundInv(r.inbound) && Mirror(v5, r.outbound, r.inbound, r.store)
    requires p.Publish? || p.Pubrel?
    ensures var r' := ReceiverHandles(r, v5, p).s; Mirror(v5, r'.outbound, r'.inbound, r'.store)
  {
    hide Mirror, HandlePubrel;
    if p.Pubrel? {
      PubrelMirrors(v5, r, p.msgid);
    } else if p.qos == 2 {
      PublishMirrors(v5, r, p);
    }
  }

  lemma ReceiverKeepsStore(v5: bool, s: System)
    requires ListsInv(s) && StoresInv(v5, s) && Enabled(s, ReceiverReads)
    ensures StoresInv(v5, Do(s, v5, ReceiverReads))
  {
    ReceiverMirrors(v5, s.receiver, s.toReceiver[0]);
    hide Mirror, ReceiverHandles, InboundInv, OutboundInv;
  }

  lemma ReceiverKeepsInv(v5: bool, s: System)
    requires Inv(v5, s) && Enabled(s, ReceiverReads)
    ensures Inv(v5, Do(s, v5, ReceiverReads))
  {
    ReceiverLists(v5, s);
    ReceiverIds(v5, s);
    ReceiverKeepsAccounts(v5, s);
    ReceiverKeepsStore(v5, s);
  }

  // ---- the sender reads an acknowledgement

  /** What the acknowledgement at the head of the channel does to the sender's list. */
  function AckedOut(s: System): seq<Message>
    requires Enabled(s, SenderReads)
  {
    var p, out := s.toSender[0], s.sender.outbound;
    var k := IndexOf(out, p.msgid);
    if k == |out| then out
    else if p.Puback? && out[k].qos == 1 then Without(out, k)
    else if p.Pubcomp? && out[k].qos == 2 && out[k].next == PubComp then Without(out, k)
    else if p.Pubrec? && out[k].qos == 2 && out[k].next == PubRec then out[k := out[k].(next := PubComp)]
    else out
  }

  lemma SenderLists(v5: bool, s: System)
    requires ListsInv(s) && ChannelsInv(s) && Enabled(s, SenderReads)
    ensures ListsInv(Do(s, v5, SenderReads)) && ChannelsInv(Do(s, v5, SenderReads))
    ensures Do(s, v5, SenderReads).sender.outbound == AckedOut(s)
    ensures s.toSender[0].Pubrec? ==> s.toSender[0].rc == 0
  {
    var p, out := s.toSender[0], s.sender.outbound;
    assert p in s.toSender;
    assert forall q :: q in s.toSender[1..] ==> q in s.toSender;
    AckedForm(s);
  }

  lemma AckedForm(s: System)
    requires OutboundInv(s.sender.outbound, s.published) && Enabled(s, SenderReads)
    ensures OutboundInv(AckedOut(s), s.published)
  {
    var p, out := s.toSender[0], s.sender.outbound;
    var k := IndexOf(out, p.msgid);
    if k < |out| {
      assert out[k] in out;
      FindRemove(out, k);
      WithoutMembers(out, k);
      var m := out[k].(next := PubComp);
      FindUpdate(out, k, m);
      UpdateMembers(out, k, m);
    }
  }

  lemma AckedFind(s: System, i: int)
    requires ListsInv(s) && Enabled(s, SenderReads)
    ensures var p, o := s.toSender[0], Find(s.sender.outbound, i);
            Find(AckedOut(s), i) ==
              if i != p.msgid || o.None? then o
              else if p.Puback? && o.m.qos == 1 then None
              else if p.Pubcomp? && o.m.qos == 2 && o.m.next == PubComp then None
              else if p.Pubrec? && o.m.qos == 2 && o.m.next == PubRec then Some(o.m.(next := PubComp))
              else o
    ensures Find(s.sender.outbound, i).Some? ==> var m := Find(s.sender.outbound, i).m; m.msgid == i && OutboundForm(m)
  {
    var p, out := s.toSender[0], s.sender.outbound;
    var k := IndexOf(out, p.msgid);
    FindMember(out, i);
    if k < |out| {
      FindRemove(out, k);
      FindUpdate(out, k, out[k].(next := PubComp));
    }
  }

  lemma SenderRecIds(v5: bool, s: System)
    requires ListsInv(s) && ChannelsInv(s) && IdsInv(v5, s) && Enabled(s, SenderReads) && s.toSender[0].Pubrec?
    ensures IdsInv(v5, Do(s, v5, SenderReads))
  {
    var p := s.toSender[0];
    var s' := Do(s, v5, SenderReads);
    SenderLists(v5, s);
    assert s'.toReceiver == s.toReceiver + [Pubrel(p.msgid)];
    forall i
      ensures IdInv(v5, Find(s'.sender.outbound, i), Find(s'.receiver.inbound, i), s'.toReceiver, s'.toSender, i)
    {
      var o, r := Find(s.sender.outbound, i), Find(s.receiver.inbound, i);
      assert IdInv(v5, o, r, s.toReceiver, s.toSender, i);
      AckedFind(s, i);
      if i == p.msgid {
        RecReadInv(v5, o, r, s.toReceiver, s.toSender, i, Pubrel(i));
      } else {
        UnrelatedInv(v5, o, r, s.toReceiver, s.toSender, i, p);
        UnrelatedInv(v5, o, r, s.toReceiver, s.toSender[1..], i, Pubrel(p.msgid));
      }
    }
  }

  lemma SenderIds(v5: bool, s: System)
    requires ListsInv(s) && ChannelsInv(s) && IdsInv(v5, s) && Enabled(s, SenderReads)
    ensures IdsInv(v5, Do(s, v5, SenderReads))
  {
    var p := s.toSender[0];
    if p.Pubrec? {
      SenderRecIds(v5, s);
    } else {
      var s' := Do(s, v5, SenderReads);
      SenderLists(v5, s);
      assert s'.toReceiver == s.toReceiver;
      forall i
        ensures IdInv(v5, Find(s'.sender.outbound, i), Find(s'.receiver.inbound, i), s'.toReceiver, s'.toSender, i)
      {
        var o, r := Find(s.sender.outbound, i), Find(s.receiver.inbound, i);
        assert IdInv(v5, o, r, s.toReceiver, s.toSender, i);
        AckedFind(s, i);
        if p.Pubcomp? && i == p.msgid {
          CompReadInv(v5, o, r, s.toReceiver, s.toSender, i);
        } else {
          UnrelatedInv(v5, o, r, s.toReceiver, s.toSender, i, p);
        }
      }
    }
  }

  /** The record of m moves on from PUBREC to PUBCOMP, or stays as it is, without becoming done or undone. */
  lemma AccountsAdvance(v5: bool, s: System, k: nat, m: Message)
    requires ListsInv(s) && AccountsInv(v5, s) && k < |s.sender.outbound|
    requires var was := s.sender.outbound[k]; m.msgid == was.msgid && m.qos == was.qos && m.body == was.body
    requires Done(v5, m, Find(s.receiver.inbound, m.msgid)) ==
      Done(v5, s.sender.outbound[k], Find(s.receiver.inbound, m.msgid))
    ensures forall c: Session :: c.outbound == s.sender.outbound[k := m] ==> AccountsInv(v5, s.(sender := c))
  {
    var out := s.sender.outbound;
    assert out[k] in out;
    UpdateMembers(out, k, m);
    forall n: nat | InFlight(out, n) ensures InFlight(out[k := m], n) {
      var x :| x in out && x.body.Content? && x.body.serial == n;
      assert x.msgid == m.msgid ==> x == out[k];
      assert (if x.msgid == m.msgid then m else x) in out[k := m];
    }
  }

  /** The record of a QoS 1 message, or of a delivered QoS 2 one, is dropped. */
  lemma AccountsDrop(v5: bool, s: System, k: nat)
    requires ListsInv(s) && AccountsInv(v5, s) && k < |s.sender.outbound|
    requires var m := s.sender.outbound[k]; m.qos == 2 ==> Done(v5, m, Find(s.receiver.inbound, m.msgid))
    ensures forall c: Session :: c.outbound == Without(s.sender.outbound, k) ==> AccountsInv(v5, s.(sender := c))
  {
    var out := s.sender.outbound;
    assert out[k] in out;
    WithoutMembers(out, k);
    forall n: nat | InFlight(out, n) && n != out[k].body.serial ensures InFlight(Without(out, k), n) {
      var x :| x in out && x.body.Content? && x.body.serial == n;
      var j :| 0 <= j < |out| && out[j] == x;
      assert j != k;
      assert x in Without(out, k);
    }
  }

  lemma SenderAccounts(v5: bool, s: System)
    requires ListsInv(s) && ChannelsInv(s) && IdsInv(v5, s) && AccountsInv(v5, s) && Enabled(s, SenderReads)
    ensures AccountsInv(v5, Do(s, v5, SenderReads))
  {
    var p, out := s.toSender[0], s.sender.outbound;
    var id, k := p.msgid, IndexOf(out, p.msgid);
    SenderLists(v5, s);
    var o, r := Find(out, id), Find(s.receiver.inbound, id);
    assert IdInv(v5, o, r, s.toReceiver, s.toSender, id);
    if p.Pubrec? {
      RecReadInv(v5, o, r, s.toReceiver, s.toSender, id, Pubrel(id));
      AckedFind(s, id);
      AccountsAdvance(v5, s, k, o.m.(next := PubComp));
    } else if AckedOut(s) != out {
      AckedFind(s, id);
      if p.Pubcomp? { CompReadInv(v5, o, r, s.toReceiver, s.toSender, id); }
      AccountsDrop(v5, s, k);
    }
  }

  lemma MirrorAdvance(v5: bool, out: seq<Message>, inb: seq<Message>, store: Store, m: Message, out': seq<Message>)
    requires Mirror(v5, out, inb, store) && m in out && m.qos == 2
    requires forall x :: x in out' <==> x == m.(next := PubComp) || (x in out && x.msgid != m.msgid)
    requires forall x :: x in out && x.msgid == m.msgid ==> x == m
    ensures Mirror(v5, out', inb, store[Key(SentRel, v5, m.msgid) := Pubrel(m.msgid)])
  {
    var store' := store[Key(SentRel, v5, m.msgid) := Pubrel(m.msgid)];
    var m' := m.(next := PubComp);
    assert m' in out';
    forall x | x in out' ensures RecordOf(store', Key(Sent, v5, x.msgid), x) {
      assert RecordOf(store, Key(Sent, v5, x.msgid), if x == m' then m else x);
    }
    forall x | x in inb ensures RecordOf(store', Key(Received, v5, x.msgid), Strip(v5, x)) {
      assert RecordOf(store, Key(Received, v5, x.msgid), Strip(v5, x));
    }
    forall i | i in Ids(out) ensures i in Ids(out') {
      var x :| x in out && x.msgid == i;
      assert x in out' || m'.msgid == i;
    }
  }

  lemma MirrorDrop(v5: bool, out: seq<Message>, inb: seq<Message>, store: Store, id: int, out': seq<Message>)
    requires Mirror(v5, out, inb, store)
    requires forall x :: x in out' <==> x in out && x.msgid != id
    ensures Mirror(v5, out', inb, Unpersist(store, true, id))
  {
    var store' := Unpersist(store, true, id);
    forall x | x in out' ensures RecordOf(store', Key(Sent, v5, x.msgid), x) {
      assert RecordOf(store, Key(Sent, v5, x.msgid), x);
    }
    forall x | x in inb ensures RecordOf(store', Key(Received, v5, x.msgid), Strip(v5, x)) {
      assert RecordOf(store, Key(Received, v5, x.msgid), Strip(v5, x));
    }
    forall i | i in Ids(out) && i != id ensures i in Ids(out') {
      var x :| x in out && x.msgid == i;
      assert x in out';
    }
  }

  /** A PUBREC that reaches the sender is for a QoS 2 message in its list. */
  lemma RecIsExpected(v5: bool, s: System)
    requires ListsInv(s) && ChannelsInv(s) && IdsInv(v5, s) && s.toSender != [] && s.toSender[0].Pubrec?
    ensures var k := IndexOf(s.sender.outbound, s.toSender[0].msgid);
            k < |s.sender.outbound| && s.sender.outbound[k].qos == 2 && OutboundForm(s.sender.outbound[k])
    ensures s.toSender[0].rc == 0
  {
    var p, out := s.toSender[0], s.sender.outbound;
    var o, r := Find(out, p.msgid), Find(s.receiver.inbound, p.msgid);
    assert p in s.toSender;
    assert IdInv(v5, o, r, s.toReceiver, s.toSender, p.msgid);
    RecReadInv(v5, o, r, s.toReceiver, s.toSender, p.msgid, Pubrel(p.msgid));
    assert o.m in out;
  }

  lemma SenderRecStore(v5: bool, c: Session, id: int)
    requires DistinctIds(c.outbound) && Mirror(v5, c.outbound, c.inbound, c.store)
    requires var k := IndexOf(c.outbound, id); k < |c.outbound| && c.outbound[k].qos == 2 && OutboundForm(c.outbound[k])
    ensures var c' := HandlePubrec(c, v5, id, 0).s; Mirror(v5, c'.outbound, c'.inbound, c'.store)
  {
    var k := IndexOf(c.outbound, id);
    var m := c.outbound[k];
    var out' := c.outbound[k := m.(next := PubComp)];
    assert m.next == PubComp ==> out' == c.outbound;
    assert HandlePubrec(c, v5, id, 0).s == c.(outbound := out', store := c.store[Key(SentRel, v5, id) := Pubrel(id)]);
    hide Mirror, HandlePubrec;
    UpdateMembers(c.outbound, k, m.(next := PubComp));
    forall x | x in c.outbound && x.msgid == m.msgid ensures x == m {
      SameId(c.outbound, x, m);
    }
    MirrorAdvance(v5, c.outbound, c.inbound, c.store, m, out');
  }

  lemma SenderKeepsStore(v5: bool, s: System)
    requires ListsInv(s) && ChannelsInv(s) && IdsInv(v5, s) && StoresInv(v5, s) && Enabled(s, SenderReads)
    ensures StoresInv(v5, Do(s, v5, SenderReads))
  {
    var p, c := s.toSender[0], s.sender;
    if p.Pubrec? {
      RecIsExpected(v5, s);
      SenderRecStore(v5, c, p.msgid);
    } else {
      var k := IndexOf(c.outbound, p.msgid);
      if k < |c.outbound| {
        WithoutMembers(c.outbound, k);
        MirrorDrop(v5, c.outbound, c.inbound, c.store, p.msgid, Without(c.outbound, k));
      }
    }
  }

  lemma SenderKeepsInv(v5: bool, s: System)
    requires Inv(v5, s) && Enabled(s, SenderReads)
    ensures Inv(v5, Do(s, v5, SenderReads))
  {
    SenderLists(v5, s);
    SenderIds(v5, s);
    SenderAccounts(v5, s);
    SenderKeepsStore(v5, s);
  }

  // ---- retries

  ghost predicate Resendable(out: seq<Message>, p: Packet) {
    exists m :: m in out && Resend(m) == [p]
  }

  lemma {:induction false} ResendsAre(ms: seq<Message>, due: set<nat>, k: nat)
    requires k <= |ms| && forall m :: m in ms ==> OutboundForm(m)
    ensures forall p :: p in Resends(ms, due, k) ==> Resendable(ms, p)
    decreases |ms| - k
  {
    if k < |ms| {
      ResendsAre(ms, due, k + 1);
      assert ms[k] in ms && |Resend(ms[k])| == 1;
      assert Resend(ms[k]) == [Resend(ms[k])[0]];
    }
  }

  /** Resending one packet of the list keeps everything; so does resending many. */
  lemma OneResentChannel(published: seq<Entry>, out: seq<Message>, ch: seq<Packet>, m: Message, p: Packet)
    requires ToReceiverInv(ch, published) && OutboundInv(out, published) && m in out && Resend(m) == [p]
    ensures ToReceiverInv(ch + [p], published)
  {
    assert Genuine(published, Entry(m.body, m.qos, m.retain));
    hide Genuine;
  }

  lemma OneResent(v5: bool, s: System, p: Packet)
    requires Inv(v5, s) && Resendable(s.sender.outbound, p)
    ensures Inv(v5, s.(sender := s.sender.(store := Persist(s.sender.store, v5, p)), toReceiver := s.toReceiver + [p]))
  {
    var m :| m in s.sender.outbound && Resend(m) == [p];
    OneResentChannel(s.published, s.sender.outbound, s.toReceiver, m, p);
    OneResentIds(v5, s, m, p);
    MirrorResend(v5, s.sender.outbound, s.sender.inbound, s.sender.store, m, p);
    hide Inv, IdInv, Mirror, ToReceiverInv, Resend, Persist, Resendable, Find;
    StoreAndChannel(v5, s, Persist(s.sender.store, v5, p), s.toReceiver + [p]);
  }

  /** The invariant after a change of the sender's store and of what is on its way to the receiver. */
  lemma StoreAndChannel(v5: bool, s: System, store: Store, ch: seq<Packet>)
    requires Inv(v5, s) && ToReceiverInv(ch, s.published) && Mirror(v5, s.sender.outbound, s.sender.inbound, store)
    requires forall i :: IdInv(v5, Find(s.sender.outbound, i), Find(s.receiver.inbound, i), ch, s.toSender, i)
    ensures Inv(v5, s.(sender := s.sender.(store := store), toReceiver := ch))
  {
    hide IdInv, Mirror, Accounts, OutboundInv, InboundInv, ToReceiverInv, ToSenderInv, Find;
  }

  lemma OneResentIds(v5: bool, s: System, m: Message, p: Packet)
    requires ListsInv(s) && IdsInv(v5, s) && m in s.sender.outbound && Resend(m) == [p]
    ensures forall i ::
      IdInv(v5, Find(s.sender.outbound, i), Find(s.receiver.inbound, i), s.toReceiver + [p], s.toSender, i)
  {
    assert OutboundForm(m) && p.msgid == m.msgid;
    FindMember(s.sender.outbound, m.msgid);
    forall i
      ensures IdInv(v5, Find(s.sender.outbound, i), Find(s.receiver.inbound, i), s.toReceiver + [p], s.toSender, i)
    {
      var o, r := Find(s.sender.outbound, i), Find(s.receiver.inbound, i);
      assert IdInv(v5, o, r, s.toReceiver, s.toSender, i);
      FindMember(s.sender.outbound, i);
      if i == m.msgid && m.qos == 2 {
        ResentInv(v5, m, r, s.toReceiver, s.toSender, p);
      } else {
        UnrelatedInv(v5, o, r, s.toReceiver, s.toSender, i, p);
      }
    }
  }

  lemma MirrorResend(v5: bool, out: seq<Message>, inb: seq<Message>, store: Store, m: Message, p: Packet)
    requires Mirror(v5, out, inb, store) && DistinctIds(out) && m in out && Resend(m) == [p]
    ensures Mirror(v5, out, inb, Persist(store, v5, p))
  {
    var store' := Persist(store, v5, p);
    forall x | x in out ensures RecordOf(store', Key(Sent, v5, x.msgid), x) {
      assert RecordOf(store, Key(Sent, v5, x.msgid), x);
      if x.msgid == m.msgid { SameId(out, x, m); }
    }
    forall x | x in inb ensures RecordOf(store', Key(Received, v5, x.msgid), Strip(v5, x)) {
      assert RecordOf(store, Key(Received, v5, x.msgid), Strip(v5, x));
    }
    assert m.msgid in Ids(out);
    forall x | x in out ensures x.next == PubComp <==> Key(SentRel, v5, x.msgid) in store' {
      if x.msgid == m.msgid { SameId(out, x, m); }
    }
  }

  function Resent(s: System, v5: bool, ps: seq<Packet>): System {
    s.(sender := s.sender.(store := PersistAll(s.sender.store, v5, ps)), toReceiver := s.toReceiver + ps)
  }

  lemma ResentOneMore(s: System, v5: bool, ps: seq<Packet>)
    requires ps != []
    ensures var s1 := s.(sender := s.sender.(store := Persist(s.sender.store, v5, ps[0])),
                         toReceiver := s.toReceiver + [ps[0]]);
            Resent(s, v5, ps) == Resent(s1, v5, ps[1..])
  {
    assert s.toReceiver + [ps[0]] + ps[1..] == s.toReceiver + ps;
  }

  lemma {:induction false} ManyResent(v5: bool, s: System, ps: seq<Packet>)
    requires Inv(v5, s) && forall p :: p in ps ==> Resendable(s.sender.outbound, p)
    ensures Inv(v5, Resent(s, v5, ps))
    decreases |ps|
  {
    if ps == [] {
      assert Resent(s, v5, ps) == s by { assert s.toReceiver + ps == s.toReceiver; }
    } else {
      var s1 := s.(sender := s.sender.(store := Persist(s.sender.store, v5, ps[0])),
                   toReceiver := s.toReceiver + [ps[0]]);
      OneResent(v5, s, ps[0]);
      ManyResent(v5, s1, ps[1..]);
      ResentOneMore(s, v5, ps);
    }
  }

  lemma RetryKeepsInv(v5: bool, s: System, due: set<nat>)
    requires Inv(v5, s)
    ensures Inv(v5, Do(s, v5, RetryPass(due)))
  {
    ResendsAre(s.sender.outbound, due, 0);
    ManyResent(v5, s, Resends(s.sender.outbound, due, 0));
  }

  lemma Retries(v5: bool, s: System, due: set<nat>)
    ensures var t := Do(s, v5, RetryPass(due));
            && t.sender.outbound == s.sender.outbound && t.sender.msgID == s.sender.msgID
            && t.receiver == s.receiver && t.toSender == s.toSender
            && t.toReceiver == s.toReceiver + Resends(s.sender.outbound, due, 0)
  {
  }

  // ---- drops and restarts

  lemma EmptiedIds(v5: bool, s: System)
    requires IdsInv(v5, s)
    ensures forall i :: IdInv(v5, Find(s.sender.outbound, i), Find(s.receiver.inbound, i), [], [], i)
  {
    forall i ensures IdInv(v5, Find(s.sender.outbound, i), Find(s.receiver.inbound, i), [], [], i) {
      assert IdInv(v5, Find(s.sender.outbound, i), Find(s.receiver.inbound, i), s.toReceiver, s.toSender, i);
    }
  }

  lemma DropKeepsInv(v5: bool, s: System)
    requires Inv(v5, s)
    ensures Inv(v5, Do(s, v5, Drop))
  {
    EmptiedIds(v5, s);
  }

  lemma NoMembers(s: seq<Message>)
    requires forall x :: x !in s
    ensures s == []
  {
    if s != [] { HasMember(s); }
  }

  lemma SenderRestartKeepsInv(v5: bool, s: System, keys: seq<Key>)
    requires Inv(v5, s) && s.toReceiver == [] && s.toSender == [] && Enabled(s, SenderRestarts(keys))
    ensures Inv(v5, Do(s, v5, SenderRestarts(keys)))
  {
    RestoreMirrored(v5, s.sender.outbound, s.sender.inbound, s.sender.store, keys);
    var c := Restart(s.sender, v5, keys);
    NoMembers(c.inbound);
    hide Inv, Mirror, RestorePackets;
    SenderReplaced(v5, s, c);
  }

  /** A sender that has the same messages, in whatever order, and the same store. */
  lemma SenderReplaced(v5: bool, s: System, c: Session)
    requires Inv(v5, s) && s.toReceiver == [] && s.toSender == [] && DistinctIds(c.outbound)
    requires c.inbound == [] && c.msgID == 0 && c.store == s.sender.store
    requires forall m :: m in c.outbound <==> m in s.sender.outbound
    ensures Inv(v5, s.(sender := c))
  {
    var out := s.sender.outbound;
    forall i ensures Find(c.outbound, i) == Find(out, i) {
      FindMember(out, i);
      FindMember(c.outbound, i);
    }
    SameMirror(v5, out, s.sender.inbound, s.sender.store, c.outbound, c.inbound);
    assert forall n: nat :: InFlight(out, n) <==> InFlight(c.outbound, n);
  }

  lemma SameMirror(v5: bool, out: seq<Message>, inb: seq<Message>, store: Store, out': seq<Message>, inb': seq<Message>)
    requires Mirror(v5, out, inb, store) && DistinctIds(inb)
    requires forall x :: x in out' <==> x in out
    requires forall x :: x in inb' <==> InBack(v5, inb, x)
    ensures Mirror(v5, out', inb', store)
  {
    assert Ids(out') == Ids(out);
    forall x | x in inb'
      ensures x.qos == 2 && x.next == PubRel && RecordOf(store, Key(Received, v5, x.msgid), Strip(v5, x))
    {
      FindMember(inb, x.msgid);
      var m := Find(inb, x.msgid).m;
      assert m in inb && x == Strip(v5, m);
    }
    forall i | i in Ids(inb) ensures i in Ids(inb') {
      FindMember(inb, i);
      assert InBack(v5, inb, Strip(v5, Find(inb, i).m));
    }
  }

  lemma InboundBack(v5: bool, inb: seq<Message>, back: seq<Message>)
    requires DistinctIds(inb) && DistinctIds(back) && forall x :: x in back <==> InBack(v5, inb, x)
    ensures forall i :: Find(back, i) == if Find(inb, i).Some? then Some(Strip(v5, Find(inb, i).m)) else None
  {
    hide Find;
    forall i ensures Find(back, i) == if Find(inb, i).Some? then Some(Strip(v5, Find(inb, i).m)) else None {
      FindMember(inb, i);
      FindMember(back, i);
      if Find(inb, i).Some? { assert InBack(v5, inb, Strip(v5, Find(inb, i).m)); }
    }
  }

  /** In version 5 the bodies, given away before, are not there any more; nothing depends on them. */
  lemma StrippedIds(v5: bool, out: seq<Message>, inb: seq<Message>, back: seq<Message>)
    requires forall i :: IdInv(v5, Find(out, i), Find(inb, i), [], [], i)
    requires forall i :: Find(back, i) == if Find(inb, i).Some? then Some(Strip(v5, Find(inb, i).m)) else None
    ensures forall i :: IdInv(v5, Find(out, i), Find(back, i), [], [], i)
  {
    hide Find;
    forall i ensures IdInv(v5, Find(out, i), Find(back, i), [], [], i) {
      assert IdInv(v5, Find(out, i), Find(inb, i), [], [], i);
    }
  }

  lemma StrippedAccounts(v5: bool, out: seq<Message>, inb: seq<Message>, back: seq<Message>, log: seq<Entry>,
                         published: seq<Entry>)
    requires Accounts(v5, out, inb, log, published)
    requires forall i :: Find(back, i) == if Find(inb, i).Some? then Some(Strip(v5, Find(inb, i).m)) else None
    ensures Accounts(v5, out, back, log, published)
  {
    hide Find, Genuine, InFlight, Count;
  }

  lemma ReceiverRestartKeepsInv(v5: bool, s: System, keys: seq<Key>)
    requires Inv(v5, s) && s.toReceiver == [] && s.toSender == [] && Enabled(s, ReceiverRestarts(keys))
    ensures Inv(v5, Do(s, v5, ReceiverRestarts(keys)))
  {
    var inb, out := s.receiver.inbound, s.receiver.outbound;
    var r := RestorePackets(s.receiver.store, v5, keys);
    RestoreMirrored(v5, out, inb, s.receiver.store, keys);
    NoMembers(r.outbound);
    InboundBack(v5, inb, r.inbound);
    StrippedInbound(v5, inb, r.inbound);
    StrippedIds(v5, s.sender.outbound, inb, r.inbound);
    StrippedAccounts(v5, s.sender.outbound, inb, r.inbound, s.receiver.delivered, s.published);
    SameMirror(v5, out, inb, s.receiver.store, r.outbound, r.inbound);
    hide IdInv, Accounts, OutboundInv, InboundInv, Mirror, RestorePackets, Find, InBack, ToReceiverInv, ToSenderInv;
  }

  lemma StrippedInbound(v5: bool, inb: seq<Message>, back: seq<Message>)
    requires InboundInv(inb) && DistinctIds(back) && forall x :: x in back <==> InBack(v5, inb, x)
    ensures InboundInv(back)
  {
    forall x | x in back ensures x.qos == 2 && x.next == PubRel {
      FindMember(inb, x.msgid);
    }
  }

  lemma StepKeepsInv(v5: bool, s: System, step: Step)
    requires Inv(v5, s) && Enabled(s, step)
    ensures Inv(v5, Do(s, v5, step))
  {
    match step
    case PublishCall(_, _, _, _) => PublishKeepsInv(v5, s, step);
    case ReceiverReads => ReceiverKeepsInv(v5, s);
    case SenderReads => SenderKeepsInv(v5, s);
    case RetryPass(due) => RetryKeepsInv(v5, s, due);
    case Drop => DropKeepsInv(v5, s);
    case SenderRestarts(keys) =>
      DropKeepsInv(v5, s);
      SenderRestartKeepsInv(v5, Do(s, v5, Drop), keys);
    case ReceiverRestarts(keys) =>
      DropKeepsInv(v5, s);
      ReceiverRestartKeepsInv(v5, Do(s, v5, Drop), keys);
  }

  // ---- over whole runs

  lemma StartInv(v5: bool)
    ensures Inv(v5, START)
  {
  }

  lemma {:induction false} RunInv(v5: bool, states: seq<System>, steps: seq<Step>, k: nat)
    requires Run(v5, states, steps) && k < |states|
    ensures Inv(v5, states[k])
  {
    if k == 0 {
      StartInv(v5);
    } else {
      RunInv(v5, states, steps, k - 1);
      assert states[k - 1 + 1] == Do(states[k - 1], v5, steps[k - 1]);
      StepKeepsInv(v5, states[k - 1], steps[k - 1]);
    }
  }

  lemma CountInFlight(v5: bool, s: System, n: nat)
    requires Inv(v5, s) && n < |s.published| && s.published[n].qos == 2
    ensures Count(s.receiver.delivered, n) <= 1
  {
    if InFlight(s.sender.outbound, n) {
      var m :| m in s.sender.outbound && m.body.Content? && m.body.serial == n;
      assert Genuine(s.published, Entry(m.body, m.qos, m.retain));
    }
  }

  /** Over every run of publish calls, reads, retries, connection drops and restarts, whatever ids are reused:
      a QoS 2 message is delivered at most once, unchanged, and exactly once by the time its record is dropped. */
  lemma ExactlyOnce(v5: bool, states: seq<System>, steps: seq<Step>, k: nat, n: nat)
    requires Run(v5, states, steps) && k < |states|
    requires n < |states[k].published| && states[k].published[n].qos == 2
    ensures Count(states[k].receiver.delivered, n) <= 1
    ensures !InFlight(states[k].sender.outbound, n) ==> Count(states[k].receiver.delivered, n) == 1
    ensures forall e :: e in states[k].receiver.delivered && e.content.Content? && e.content.serial == n ==>
      e == states[k].published[n]
  {
    RunInv(v5, states, steps, k);
    CountInFlight(v5, states[k], n);
  }

  /** In the same runs both stores mirror the in-flight lists, so a crash between steps loses nothing:
      what the sender restores are the same messages in the same handshake states. */
  lemma CrashLosesNothing(v5: bool, states: seq<System>, steps: seq<Step>, k: nat, keys: seq<Key>)
    requires Run(v5, states, steps) && k < |states| && Enabled(states[k], SenderRestarts(keys))
    ensures var c, r := states[k].sender, RestorePackets(states[k].sender.store, v5, keys);
            && Mirror(v5, c.outbound, c.inbound, c.store)
            && r.ok && r.store == c.store && (forall m :: m in r.outbound <==> m in c.outbound)
            && (r.outbound == c.outbound <==> CyclicUp(c.outbound) && AllBeaten(c.outbound))
  {
    RunInv(v5, states, steps, k);
    var out := states[k].sender.outbound;
    assert forall i :: 0 <= i < |out| ==> out[i] in out;
    RestoreMirrored(v5, out, states[k].sender.inbound, states[k].sender.store, keys);
  }

  // ---- no message gets stuck

  ghost predicate Goes(v5: bool, s: System, steps: seq<Step>, t: System)
    decreases |steps|
  {
    if steps == [] then s == t else Enabled(s, steps[0]) && Goes(v5, Do(s, v5, steps[0]), steps[1..], t)
  }

  lemma {:induction false} GoesThen(v5: bool, s: System, a: seq<Step>, t: System, b: seq<Step>, u: System)
    requires Goes(v5, s, a, t) && Goes(v5, t, b, u)
    ensures Goes(v5, s, a + b, u)
    decreases |a|
  {
    if a == [] {
      assert a + b == b;
    } else {
      assert (a + b)[1..] == a[1..] + b;
      GoesThen(v5, Do(s, v5, a[0]), a[1..], t, b, u);
    }
  }

  lemma GoesOne(v5: bool, s: System, step: Step)
    requires Enabled(s, step)
    ensures Goes(v5, s, [step], Do(s, v5, step))
  {
    hide Do, Enabled;
    assert [step][1..] == [];
    assert Goes(v5, Do(s, v5, step), [], Do(s, v5, step));
  }

  lemma GoesTwo(v5: bool, s: System, a: Step, b: Step)
    requires Enabled(s, a) && Enabled(Do(s, v5, a), b)
    ensures Goes(v5, s, [a, b], Do(Do(s, v5, a), v5, b))
  {
    hide Do, Enabled;
    var r := Do(s, v5, a);
    var t := Do(r, v5, b);
    assert [a, b][1..] == [b] && [b][1..] == [];
    assert Goes(v5, t, [], t);
    assert Goes(v5, r, [b], t);
  }

  lemma {:induction false} GoesKeepsInv(v5: bool, s: System, steps: seq<Step>, t: System)
    requires Inv(v5, s) && Goes(v5, s, steps, t)
    ensures Inv(v5, t)
    decreases |steps|
  {
    hide Inv, Do, Enabled;
    if steps != [] {
      StepKeepsInv(v5, s, steps[0]);
      GoesKeepsInv(v5, Do(s, v5, steps[0]), steps[1..], t);
    }
  }

  lemma {:induction false} MorePublished(v5: bool, s: System, steps: seq<Step>, t: System)
    requires Goes(v5, s, steps, t)
    ensures s.published <= t.published
    decreases |steps|
  {
    if steps != [] {
      MorePublished(v5, Do(s, v5, steps[0]), steps[1..], t);
    }
  }

  lemma {:induction false} ResendsNone(ms: seq<Message>, k: nat)
    requires 1 <= k <= |ms|
    ensures Resends(ms, {0}, k) == []
    decreases |ms| - k
  {
    if k < |ms| { ResendsNone(ms, k + 1); }
  }

  /** Drop the connection and retry the oldest message. */
  lemma OldestResent(v5: bool, s: System) returns (t: System)
    requires Inv(v5, s) && s.sender.outbound != []
    ensures Goes(v5, s, [Drop, RetryPass({0})], t) && Inv(v5, t)
    ensures t.toReceiver == Resend(s.sender.outbound[0]) && t.toSender == [] && |t.toReceiver| == 1
    ensures t.sender.outbound == s.sender.outbound && t.published == s.published
  {
    var d := Do(s, v5, Drop);
    t := Do(d, v5, RetryPass({0}));
    DropKeepsInv(v5, s);
    RetryKeepsInv(v5, d, {0});
    FirstResent(v5, s);
    hide Inv, Do, Goes, Resend;
    GoesTwo(v5, s, Drop, RetryPass({0}));
  }

  lemma FirstResent(v5: bool, s: System)
    requires ListsInv(s) && s.sender.outbound != []
    ensures var t := Do(Do(s, v5, Drop), v5, RetryPass({0}));
            && t.toReceiver == Resend(s.sender.outbound[0]) && t.toSender == [] && |t.toReceiver| == 1
            && t.sender.outbound == s.sender.outbound && t.published == s.published
  {
    var m := s.sender.outbound[0];
    assert m in s.sender.outbound;
    assert OutboundForm(m);
    hide OutboundInv, InboundInv, Genuine, Persist, PersistAll;
    ResendsNone(s.sender.outbound, 1);
    assert Resends(s.sender.outbound, {0}, 0) == Resend(m);
  }

  /** The oldest message's packet goes over, its answer comes back, and the record moves on or goes. */
  lemma OneExchange(v5: bool, s: System) returns (t: System)
    requires Inv(v5, s) && s.toSender == [] && s.sender.outbound != []
    requires |s.toReceiver| == 1 && s.toReceiver == Resend(s.sender.outbound[0])
    ensures Goes(v5, s, [ReceiverReads, SenderReads], t) && Inv(v5, t)
    ensures t.published == s.published && t.toSender == []
    ensures var m := s.sender.outbound[0];
            if m.qos == 2 && m.next == PubRec then
              t.sender.outbound == s.sender.outbound[0 := m.(next := PubComp)] &&
              t.toReceiver == Resend(m.(next := PubComp))
            else t.sender.outbound == s.sender.outbound[1..]
  {
    var m := s.sender.outbound[0];
    assert m in s.sender.outbound && OutboundForm(m);
    hide Inv, Do, Resend, Goes, Answer, Enabled;
    var r := OldestAnswered(v5, s, m);
    AnswerTaken(v5, r, m);
    t := Do(r, v5, SenderReads);
    SenderKeepsInv(v5, r);
    GoesTwo(v5, s, ReceiverReads, SenderReads);
  }

  function Answer(m: Message): Packet {
    if m.qos == 1 then Puback(m.msgid) else if m.next == PubRec then Pubrec(m.msgid, 0) else Pubcomp(m.msgid)
  }

  lemma OldestAnswered(v5: bool, s: System, m: Message) returns (r: System)
    requires Inv(v5, s) && s.toSender == [] && OutboundForm(m) && s.toReceiver == Resend(m)
    ensures Enabled(s, ReceiverReads) && r == Do(s, v5, ReceiverReads) && Inv(v5, r)
    ensures r.sender == s.sender && r.published == s.published && r.toReceiver == [] && r.toSender == [Answer(m)]
  {
    r := Do(s, v5, ReceiverReads);
    ReceiverKeepsInv(v5, s);
  }

  lemma AnswerTaken(v5: bool, r: System, m: Message)
    requires r.sender.outbound != [] && r.sender.outbound[0] == m && OutboundForm(m)
    requires r.toSender == [Answer(m)] && r.toReceiver == []
    ensures Enabled(r, SenderReads) && Do(r, v5, SenderReads).published == r.published
    ensures var t := Do(r, v5, SenderReads);
            t.toSender == [] &&
            if m.qos == 2 && m.next == PubRec then
              t.sender.outbound == r.sender.outbound[0 := m.(next := PubComp)] &&
              t.toReceiver == Resend(m.(next := PubComp))
            else t.sender.outbound == r.sender.outbound[1..]
  {
    assert IndexOf(r.sender.outbound, m.msgid) == 0;
    assert Without(r.sender.outbound, 0) == r.sender.outbound[1..];
  }

  lemma OldestFlushed(v5: bool, s: System) returns (steps: seq<Step>, t: System)
    requires Inv(v5, s) && s.sender.outbound != []
    ensures Goes(v5, s, steps, t) && Inv(v5, t)
    ensures t.published == s.published && t.sender.outbound == s.sender.outbound[1..]
  {
    hide Inv, Do, Goes;
    var m := s.sender.outbound[0];
    var r := OldestResent(v5, s);
    t := OneExchange(v5, r);
    steps := [Drop, RetryPass({0})] + [ReceiverReads, SenderReads];
    GoesThen(v5, s, [Drop, RetryPass({0})], r, [ReceiverReads, SenderReads], t);
    if m.qos == 2 && m.next == PubRec {
      var u := OneExchange(v5, t);
      GoesThen(v5, s, steps, t, [ReceiverReads, SenderReads], u);
      steps, t := steps + [ReceiverReads, SenderReads], u;
    }
  }

  /** From every state that a run can reach, some continuation empties the sender's list, and then every
      QoS 2 message published so far has been delivered exactly once. */
  lemma {:induction false} EventuallyDelivered(v5: bool, s: System) returns (steps: seq<Step>, t: System)
    requires Inv(v5, s)
    ensures Goes(v5, s, steps, t) && t.published == s.published && t.sender.outbound == []
    ensures forall n: nat :: n < |s.published| && s.published[n].qos == 2 ==> Count(t.receiver.delivered, n) == 1
    decreases |s.sender.outbound|
  {
    if s.sender.outbound == [] {
      steps, t := [], s;
      assert forall n: nat :: !InFlight(s.sender.outbound, n);
    } else {
      var a, r := OldestFlushed(v5, s);
      var b, u := EventuallyDelivered(v5, r);
      GoesThen(v5, s, a, r, b, u);
      steps, t := a + b, u;
    }
  }
}
