/** The session state of one MQTT client and what each handler of MQTTProtocolClient.c does to it,
    on values: the specification of the class in ProtocolClient.dfy and the steps of Delivery.dfy. */
module Session {
  import opened Sequences

  /** What a publication carries. `serial` names the publish call it came from; no handler looks at it.
      NoContent is a NULL publication, or one whose topic and payload have been given away. */
  datatype Content = NoContent | Content(serial: nat, topic: seq<int>, payload: seq<int>)

  datatype Next = Unset | PubRec | PubRel | PubComp

  /** One in-flight message (Messages in Clients.h). */
  datatype Message = Message(msgid: int, qos: int, retain: bool, next: Next, body: Content)

  datatype Packet =
    | Publish(dup: bool, qos: int, retain: bool, msgid: int, content: Content)
    | Puback(msgid: int)
    | Pubrec(msgid: int, rc: int)
    | Pubrel(msgid: int)
    | Pubcomp(msgid: int)
    | Unparsed  // a stored record that is no packet

  /** Persistence keys: "s-"/"s5-", "sc-"/"sc5-" and "r-"/"r5-" followed by the id. */
  datatype Kind = Sent | SentRel | Received
  datatype Key = Key(kind: Kind, v5: bool, id: int)
  type Store = map<Key, Packet>

  /** A publication handed to Protocol_processPublication. */
  datatype Entry = Entry(content: Content, qos: int, retain: bool)

  datatype Session = Session(
    outbound: seq<Message>, inbound: seq<Message>, msgID: int,
    store: Store, delivered: seq<Entry>)

  const FRESH := Session([], [], 0, map[], [])

  datatype Effect = Effect(s: Session, wire: seq<Packet>)

  // ---- message lists

  function IndexOf(ms: seq<Message>, id: int): (k: nat)
    ensures k <= |ms| && (k < |ms| ==> ms[k].msgid == id)
    ensures forall j :: 0 <= j < k ==> ms[j].msgid != id
  {
    if ms == [] then 0 else if ms[0].msgid == id then 0 else 1 + IndexOf(ms[1..], id)
  }

  datatype Found = None | Some(m: Message)

  function Find(ms: seq<Message>, id: int): Found {
    var k := IndexOf(ms, id);
    if k < |ms| then Some(ms[k]) else None
  }

  ghost predicate DistinctIds(ms: seq<Message>) {
    forall i, j :: 0 <= i < j < |ms| ==> ms[i].msgid != ms[j].msgid
  }

  function Ids(ms: seq<Message>): set<int> {
    set m | m in ms :: m.msgid
  }

  // ---- sending: MQTTPacket_send and MQTTPacket_sends persist before they write

  function Persist(store: Store, v5: bool, p: Packet): Store {
    match p
    case Publish(_, qos, _, id, _) => if qos != 0 then store[Key(Sent, v5, id) := p] else store
    case Pubrel(id) => store[Key(SentRel, v5, id) := p]
    case _ => store
  }

  function Send(s: Session, v5: bool, p: Packet): Effect {
    Effect(s.(store := Persist(s.store, v5, p)), [p])
  }

  /** MQTTPersistence_remove: both versions of the record, and for a sent one its PUBREL too. */
  function Unpersist(store: Store, sent: bool, id: int): Store {
    if sent then store - {Key(Sent, true, id), Key(SentRel, true, id), Key(Sent, false, id), Key(SentRel, false, id)}
    else store - {Key(Received, true, id), Key(Received, false, id)}
  }

  function DropOutbound(s: Session, k: nat): Session
    requires k < |s.outbound|
  {
    s.(outbound := Without(s.outbound, k), store := Unpersist(s.store, true, s.outbound[k].msgid))
  }

  // ---- the handlers

  /** MQTTClient_publish5 once it may proceed: pick an id, record the message, send it. */
  function StartPublish(s: Session, v5: bool, c: Content, qos: int, retain: bool, msgid: int): Effect {
    if qos == 0 then Send(s, v5, Publish(false, 0, retain, 0, c))
    else
      var m := Message(msgid, qos, retain, if qos == 2 then PubRec else Unset, c);
      Send(s.(outbound := s.outbound + [m], msgID := msgid), v5, Publish(false, qos, retain, msgid, c))
  }

  function Deliver(s: Session, c: Content, qos: int, retain: bool): Session {
    s.(delivered := s.delivered + [Entry(c, qos, retain)])
  }

  function HandlePublish(s: Session, v5: bool, p: Packet): Effect
    requires p.Publish?
  {
    if p.qos == 0 then Effect(Deliver(s, p.content, 0, p.retain), [])
    else if p.qos == 1 then Send(Deliver(s, p.content, 1, p.retain), v5, Puback(p.msgid))
    else if p.qos == 2 then
      var k := IndexOf(s.inbound, p.msgid);
      var deliverNow := v5 && k == |s.inbound|;
      var m := Message(p.msgid, 2, p.retain, PubRel, if deliverNow then NoContent else p.content);
      var s1 := s.(store := s.store[Key(Received, v5, p.msgid) := p],
                   inbound := if k < |s.inbound| then s.inbound[k := m] else s.inbound + [m]);
      Send(if deliverNow then Deliver(s1, p.content, 2, p.retain) else s1, v5, Pubrec(p.msgid, 0))
    else Effect(s, [])
  }

  function HandlePuback(s: Session, id: int): Session {
    var k := IndexOf(s.outbound, id);
    if k < |s.outbound| && s.outbound[k].qos == 1 then DropOutbound(s, k) else s
  }

  function HandlePubrec(s: Session, v5: bool, id: int, rc: int): Effect {
    var k := IndexOf(s.outbound, id);
    if k < |s.outbound| && s.outbound[k].qos == 2 && s.outbound[k].next == PubRec then
      if v5 && rc >= 128 then Effect(DropOutbound(s, k), [])
      else Send(s.(outbound := s.outbound[k := s.outbound[k].(next := PubComp)]), v5, Pubrel(id))
    else Send(s, v5, Pubrel(id))
  }

  function HandlePubrel(s: Session, v5: bool, id: int): Effect {
    var k := IndexOf(s.inbound, id);
    if k < |s.inbound| && s.inbound[k].qos == 2 && s.inbound[k].next == PubRel then
      var m := s.inbound[k];
      var s1 := if v5 then s else Deliver(s, m.body, 2, m.retain);
      Send(s1.(inbound := Without(s.inbound, k), store := Unpersist(s.store, false, id)), v5, Pubcomp(id))
    else Send(s, v5, Pubcomp(id))
  }

  function HandlePubcomp(s: Session, id: int): Session {
    var k := IndexOf(s.outbound, id);
    if k < |s.outbound| && s.outbound[k].qos == 2 && s.outbound[k].next == PubComp then DropOutbound(s, k) else s
  }

  // ---- MQTTProtocol_retries

  /** What a retry sends for one message. */
  function Resend(m: Message): seq<Packet> {
    if m.qos == 1 || (m.qos == 2 && m.next == PubRec) then [Publish(true, m.qos, m.retain, m.msgid, m.body)]
    else if m.qos != 0 && m.next == PubComp then [Pubrel(m.msgid)]
    else []
  }

  /** The packets of one pass over the list from position k; `due` are the positions whose retry time has come
      and that were reached before the socket filled up. */
  function Resends(ms: seq<Message>, due: set<nat>, k: nat): seq<Packet>
    requires k <= |ms|
    decreases |ms| - k
  {
    if k == |ms| then [] else (if k in due then Resend(ms[k]) else []) + Resends(ms, due, k + 1)
  }

  function PersistAll(store: Store, v5: bool, ps: seq<Packet>): Store
    decreases |ps|
  {
    if ps == [] then store else PersistAll(Persist(store, v5, ps[0]), v5, ps[1..])
  }

  function Retry(s: Session, v5: bool, due: set<nat>): Effect {
    var ps := Resends(s.outbound, due, 0);
    Effect(s.(store := PersistAll(s.store, v5, ps)), ps)
  }

  lemma {:induction false} PersistAllConcat(store: Store, v5: bool, a: seq<Packet>, b: seq<Packet>)
    ensures PersistAll(store, v5, a + b) == PersistAll(PersistAll(store, v5, a), v5, b)
    decreases |a|
  {
    if a == [] {
      assert a + b == b;
    } else {
      assert (a + b)[1..] == a[1..] + b;
      PersistAllConcat(Persist(store, v5, a[0]), v5, a[1..], b);
    }
  }

  /** MQTTClient_cleanSession. What was delivered is history and stays. */
  function Clean(s: Session): Session {
    FRESH.(delivered := s.delivered)
  }

  // ---- facts about lists keyed by message id

  lemma FindMember(ms: seq<Message>, id: int)
    requires DistinctIds(ms)
    ensures forall m :: Find(ms, id) == Some(m) <==> m in ms && m.msgid == id
    ensures Find(ms, id) == None <==> id !in Ids(ms)
  {
  }

  lemma FindAppend(ms: seq<Message>, m: Message)
    requires DistinctIds(ms) && m.msgid !in Ids(ms)
    ensures DistinctIds(ms + [m])
    ensures forall id :: Find(ms + [m], id) == if id == m.msgid then Some(m) else Find(ms, id)
  {
    forall id ensures Find(ms + [m], id) == if id == m.msgid then Some(m) else Find(ms, id) {
      FindMember(ms, id);
      assert DistinctIds(ms + [m]);
      FindMember(ms + [m], id);
    }
  }

  lemma FindUpdate(ms: seq<Message>, k: nat, m: Message)
    requires DistinctIds(ms) && k < |ms| && m.msgid == ms[k].msgid
    ensures DistinctIds(ms[k := m])
    ensures forall id :: Find(ms[k := m], id) == if id == m.msgid then Some(m) else Find(ms, id)
  {
    var ms' := ms[k := m];
    assert DistinctIds(ms');
    forall id ensures Find(ms', id) == if id == m.msgid then Some(m) else Find(ms, id) {
      assert forall j :: 0 <= j < |ms| ==> ms'[j].msgid == ms[j].msgid;
      assert IndexOf(ms, id) == IndexOf(ms', id);
    }
  }

  lemma FindRemove(ms: seq<Message>, k: nat)
    requires DistinctIds(ms) && k < |ms|
    ensures DistinctIds(Without(ms, k))
    ensures forall id :: Find(Without(ms, k), id) == if id == ms[k].msgid then None else Find(ms, id)
  {
    var ms' := Without(ms, k);
    assert forall j :: 0 <= j < |ms'| ==> ms'[j] == ms[if j < k then j else j + 1];
    assert DistinctIds(ms');
    forall id ensures Find(ms', id) == if id == ms[k].msgid then None else Find(ms, id) {
      FindMember(ms, id);
      FindMember(ms', id);
      var a := IndexOf(ms, id);
      if a < |ms| && a != k {
        assert ms'[if a < k then a else a - 1] == ms[a];
      }
    }
  }
}
