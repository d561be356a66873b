/** One MQTT client as MQTTProtocolClient.c and MQTTClient.c keep it: in-flight lists whose messages point to
    reference-counted publications, and the registry of those. Every method refines its handler in Session.dfy
    and keeps the ownership of publications. */
module ProtocolClient {
  import opened MsgId
  import opened Session
  import S = Session
  import opened Recovery
  import opened Sequences
  import InFlightList

  /** Stored publication data (Publications in Clients.h). */
  class Publication {
    const content: Content
    var refcount: int

    constructor (content: Content)
      ensures this.content == content && refcount == 1
    {
      this.content := content;
      refcount := 1;
    }
  }

  /** An entry of an in-flight list, with its pointer. */
  datatype Messages = Messages(msgid: int, qos: int, retain: bool, next: Next, publish: Publication?)

  function Abs(m: Messages): Message {
    Message(m.msgid, m.qos, m.retain, m.next, if m.publish == null then NoContent else m.publish.content)
  }

  function AbsAll(ms: seq<Messages>): (r: seq<Message>)
    ensures |r| == |ms| && forall i :: 0 <= i < |ms| ==> r[i] == Abs(ms[i])
  {
    if ms == [] then [] else [Abs(ms[0])] + AbsAll(ms[1..])
  }

  /** pending_write in MQTTProtocol.h: a QoS 0 publication and the socket that is still writing it. */
  datatype PendingWrite = PendingWrite(socket: int, p: Publication)

  function Owners(ws: seq<PendingWrite>): multiset<Publication> {
    if ws == [] then multiset{} else multiset{ws[0].p} + Owners(ws[1..])
  }

  /** One entry on: its publication is given up or kept. */
  lemma OwnersStep(pending: multiset<Publication>, left: multiset<Publication>, ws: seq<PendingWrite>,
                   kept: multiset<Publication>, done: PendingWrite -> bool)
    requires ws != [] && pending == Owners(ws) + kept && left == Owners(InFlightList.Keep(ws, done)) + kept
    ensures ws[0].p in pending
    ensures var p, tl := multiset{ws[0].p}, ws[1..];
            if done(ws[0]) then pending - p == Owners(tl) + kept && left == Owners(InFlightList.Keep(tl, done)) + kept
            else pending == Owners(tl) + (kept + p) && left == Owners(InFlightList.Keep(tl, done)) + (kept + p)
  {
    var k := InFlightList.Keep(ws[1..], done);
    assert ([ws[0]] + k)[1..] == k;
    assert [] + k == k;
    var p := multiset{ws[0].p};
    assert Owners(ws) == p + Owners(ws[1..]);
    assert Owners(InFlightList.Keep(ws, done)) == if done(ws[0]) then Owners(k) else p + Owners(k);
    hide Owners, InFlightList.Keep;
    OneMoved(ws[0].p, Owners(ws[1..]), kept);
    OneMoved(ws[0].p, Owners(k), kept);
  }

  lemma OneMoved(p: Publication, rest: multiset<Publication>, kept: multiset<Publication>)
    ensures var all := multiset{p} + rest + kept;
            p in all && all - multiset{p} == rest + kept && all == rest + (kept + multiset{p})
  {
  }

  lemma NoOwners(done: PendingWrite -> bool)
    ensures Owners([]) == multiset{} && Owners(InFlightList.Keep([], done)) == multiset{}
  {
  }

  // ---- references

  function RefTo(p: Publication?): multiset<Publication> {
    if p == null then multiset{} else multiset{p}
  }

  function RefOf(m: Messages): multiset<Publication> {
    RefTo(m.publish)
  }

  function Refs(ms: seq<Messages>): multiset<Publication> {
    if ms == [] then multiset{} else RefOf(ms[0]) + Refs(ms[1..])
  }

  lemma {:induction false} RefsConcat(a: seq<Messages>, b: seq<Messages>)
    ensures Refs(a + b) == Refs(a) + Refs(b)
  {
    if a == [] {
      assert a + b == b;
    } else {
      assert (a + b)[1..] == a[1..] + b;
      RefsConcat(a[1..], b);
    }
  }

  lemma RefsOne(m: Messages)
    ensures Refs([m]) == RefOf(m)
  {
    assert [m][1..] == [];
  }

  /** Storing a publication and removing another may be done in either order. */
  lemma StoredThenRemoved(pubs: multiset<Publication>, p: Publication, was: Publication?)
    requires p !in pubs && was != p
    ensures pubs + multiset{p} - RefTo(was) == pubs - RefTo(was) + RefTo(p)
    ensures RefTo(p) == multiset{p}
  {
  }

  lemma Swapped(a: multiset<Publication>, m: multiset<Publication>, b: multiset<Publication>)
    ensures a + (m + b) == m + (a + b)
  {
  }

  lemma RefsSplit(ms: seq<Messages>, k: nat)
    requires k < |ms|
    ensures Refs(ms) == Refs(ms[..k]) + (RefOf(ms[k]) + Refs(ms[k + 1..]))
  {
    hide Refs, RefOf;
    assert ms == ms[..k] + ([ms[k]] + ms[k + 1..]);
    RefsConcat(ms[..k], [ms[k]] + ms[k + 1..]);
    RefsConcat([ms[k]], ms[k + 1..]);
    RefsOne(ms[k]);
  }

  lemma RefsRemove(ms: seq<Messages>, k: nat)
    requires k < |ms|
    ensures Refs(ms) == RefOf(ms[k]) + Refs(Without(ms, k))
  {
    hide Refs, RefOf;
    RefsSplit(ms, k);
    RefsConcat(ms[..k], ms[k + 1..]);
    Swapped(Refs(ms[..k]), RefOf(ms[k]), Refs(ms[k + 1..]));
  }

  lemma RefsUpdate(ms: seq<Messages>, k: nat, m: Messages)
    requires k < |ms|
    ensures Refs(ms[k := m]) == RefOf(m) + Refs(Without(ms, k))
  {
    hide Refs;
    var ms' := ms[k := m];
    RefsRemove(ms', k);
    assert Without(ms', k) == Without(ms, k);
  }

  lemma RefsAppend(ms: seq<Messages>, m: Messages)
    ensures Refs(ms + [m]) == RefOf(m) + Refs(ms)
  {
    hide Refs;
    RefsConcat(ms, [m]);
    RefsOne(m);
  }

  /** No publication is listed twice. */
  ghost predicate Sole(pubs: multiset<Publication>) {
    forall p :: p in pubs ==> pubs[p] == 1
  }

  ghost predicate Registered(pubs: multiset<Publication>, out: seq<Messages>, inb: seq<Messages>,
                             pending: multiset<Publication>) {
    Sole(pubs) && pubs == Refs(out) + (Refs(inb) + pending)
  }

  lemma DropRef(pubs: multiset<Publication>, ms: seq<Messages>, others: multiset<Publication>, k: nat)
    requires Sole(pubs) && pubs == Refs(ms) + others && k < |ms|
    ensures var pubs' := pubs - RefOf(ms[k]);
            && pubs' == Refs(Without(ms, k)) + others && Sole(pubs')
            && forall q :: q in pubs' ==> q in pubs && q != ms[k].publish
    ensures ms[k].publish != null ==> ms[k].publish in pubs
  {
    hide Refs;
    RefsRemove(ms, k);
    var pubs' := pubs - RefOf(ms[k]);
    if ms[k].publish != null {
      assert ms[k].publish in RefOf(ms[k]);
    }
    forall q | q in pubs' ensures q in pubs && q != ms[k].publish && pubs'[q] == 1 {
      assert pubs'[q] > 0;
    }
  }

  lemma AddRef(pubs: multiset<Publication>, ms: seq<Messages>, others: multiset<Publication>, m: Messages)
    requires Sole(pubs) && pubs == Refs(ms) + others && m.publish != null && m.publish !in pubs
    ensures var pubs' := pubs + multiset{m.publish};
            pubs' == Refs(ms + [m]) + others && Sole(pubs') && forall q :: q in pubs' <==> q in pubs || q == m.publish
  {
    hide Refs;
    RefsAppend(ms, m);
    SoleMore(pubs, m);
    SwapSum(RefOf(m), Refs(ms), others);
    assert RefOf(m) == multiset{m.publish};
  }

  lemma OutboundDropped(pubs: multiset<Publication>, out: seq<Messages>, inb: seq<Messages>,
                        pending: multiset<Publication>, k: nat)
    requires Registered(pubs, out, inb, pending) && k < |out|
    ensures Registered(pubs - RefOf(out[k]), Without(out, k), inb, pending)
    ensures out[k].publish != null ==> out[k].publish in pubs
    ensures forall q :: q in pubs - RefOf(out[k]) ==> q in pubs && q != out[k].publish
  {
    hide Refs;
    DropRef(pubs, out, Refs(inb) + pending, k);
  }

  lemma OutboundAdded(pubs: multiset<Publication>, out: seq<Messages>, inb: seq<Messages>,
                      pending: multiset<Publication>, m: Messages)
    requires Registered(pubs, out, inb, pending) && m.publish != null && m.publish !in pubs
    ensures Registered(pubs + RefOf(m), out + [m], inb, pending)
  {
    hide Refs;
    AddRef(pubs, out, Refs(inb) + pending, m);
  }

  lemma InboundAdded(pubs: multiset<Publication>, out: seq<Messages>, inb: seq<Messages>,
                     pending: multiset<Publication>, m: Messages)
    requires Registered(pubs, out, inb, pending) && m.publish != null && m.publish !in pubs
    ensures Registered(pubs + RefOf(m), out, inb + [m], pending)
  {
    hide Refs;
    assert Refs(out) + (Refs(inb) + pending) == Refs(inb) + (Refs(out) + pending);
    AddRef(pubs, inb, Refs(out) + pending, m);
    assert Refs(inb + [m]) + (Refs(out) + pending) == Refs(out) + (Refs(inb + [m]) + pending);
  }

  lemma InboundDropped(pubs: multiset<Publication>, out: seq<Messages>, inb: seq<Messages>,
                       pending: multiset<Publication>, k: nat)
    requires Registered(pubs, out, inb, pending) && k < |inb|
    ensures Registered(pubs - RefOf(inb[k]), out, Without(inb, k), pending)
    ensures inb[k].publish != null ==> inb[k].publish in pubs
    ensures forall q :: q in pubs - RefOf(inb[k]) ==> q in pubs && q != inb[k].publish
  {
    hide Refs;
    var inb' := Without(inb, k);
    assert Refs(out) + (Refs(inb) + pending) == Refs(inb) + (Refs(out) + pending);
    DropRef(pubs, inb, Refs(out) + pending, k);
    assert Refs(inb') + (Refs(out) + pending) == Refs(out) + (Refs(inb') + pending);
  }

  lemma InboundSwapped(pubs: multiset<Publication>, out: seq<Messages>, inb: seq<Messages>,
                       pending: multiset<Publication>,
                       k: nat, m: Messages)
    requires Registered(pubs, out, inb, pending) && k < |inb| && (m.publish != null ==> m.publish !in pubs)
    ensures Registered(pubs - RefOf(inb[k]) + RefOf(m), out, inb[k := m], pending)
    ensures inb[k].publish != null ==> inb[k].publish in pubs
    ensures forall q :: q in pubs - RefOf(inb[k]) + RefOf(m) ==> (q in pubs && q != inb[k].publish) || q == m.publish
  {
    hide Refs;
    var inb' := inb[k := m];
    assert Refs(out) + (Refs(inb) + pending) == Refs(inb) + (Refs(out) + pending);
    SwapRef(pubs, inb, Refs(out) + pending, k, m);
    assert Refs(inb') + (Refs(out) + pending) == Refs(out) + (Refs(inb') + pending);
  }

  lemma OutboundInserted(pubs: multiset<Publication>, out: seq<Messages>, inb: seq<Messages>,
                         pending: multiset<Publication>,
                         k: nat, m: Messages)
    requires Registered(pubs, out, inb, pending) && k <= |out| && m.publish != null && m.publish !in pubs
    ensures Registered(pubs + RefOf(m), out[..k] + [m] + out[k..], inb, pending)
  {
    hide Refs;
    OutboundAdded(pubs, out, inb, pending, m);
    var out' := out[..k] + [m] + out[k..];
    RefsRemove(out', k);
    assert Without(out', k) == out;
    RefsAppend(out, m);
  }

  lemma OutboundRotated(pubs: multiset<Publication>, out: seq<Messages>, inb: seq<Messages>,
                        pending: multiset<Publication>, k: nat)
    requires Registered(pubs, out, inb, pending) && k <= |out|
    ensures Registered(pubs, Rotate(out, k), inb, pending)
  {
    hide Refs;
    assert out == out[..k] + out[k..];
    RefsConcat(out[..k], out[k..]);
    RefsConcat(out[k..], out[..k]);
  }

  lemma PendingAdded(pubs: multiset<Publication>, out: seq<Messages>, inb: seq<Messages>,
                     pending: multiset<Publication>, p: Publication)
    requires Registered(pubs, out, inb, pending) && p !in pubs
    ensures Registered(pubs + multiset{p}, out, inb, pending + multiset{p})
  {
    hide Refs;
    SoleMore(pubs, Messages(0, 0, false, Unset, p));
  }

  lemma PendingRegistered(pubs: multiset<Publication>, out: seq<Messages>, inb: seq<Messages>,
                          pending: multiset<Publication>, p: Publication)
    requires Registered(pubs, out, inb, pending) && p in pending
    ensures p in pubs
  {
    hide Refs;
    assert pubs[p] >= pending[p];
  }

  lemma PendingDropped(pubs: multiset<Publication>, out: seq<Messages>, inb: seq<Messages>,
                       pending: multiset<Publication>, p: Publication)
    requires Registered(pubs, out, inb, pending) && p in pending
    ensures Registered(pubs - RefTo(p), out, inb, pending - multiset{p}) && p in pubs
    ensures forall q :: q in pubs - RefTo(p) ==> q in pubs && q != p
  {
    hide Refs;
    assert pubs[p] >= pending[p];
    assert pubs - RefTo(p) == Refs(out) + (Refs(inb) + (pending - multiset{p}));
    forall q | q in pubs - RefTo(p) ensures q in pubs && q != p && (pubs - RefTo(p))[q] == 1 {
      assert (pubs - RefTo(p))[q] > 0;
    }
  }

  lemma NoneListed(pubs: multiset<Publication>, pending: multiset<Publication>)
    requires Registered(pubs, [], [], pending)
    ensures pubs == pending && AbsAll([]) == []
  {
  }

  lemma {:induction false} AbsConcat(a: seq<Messages>, b: seq<Messages>)
    ensures AbsAll(a + b) == AbsAll(a) + AbsAll(b)
  {
    hide AbsAll;
    var l, r := AbsAll(a + b), AbsAll(a) + AbsAll(b);
    forall i | 0 <= i < |l| ensures l[i] == r[i] {
    }
  }

  lemma AbsInsert(ms: seq<Messages>, k: nat, m: Messages)
    requires k <= |ms|
    ensures AbsAll(ms[..k] + [m] + ms[k..]) == AbsAll(ms)[..k] + [Abs(m)] + AbsAll(ms)[k..]
  {
    hide AbsAll;
    assert ms == ms[..k] + ms[k..];
    AbsConcat(ms[..k], ms[k..]);
    AbsConcat(ms[..k] + [m], ms[k..]);
    AbsAppend(ms[..k], m);
  }

  lemma AbsRotate(ms: seq<Messages>, k: nat)
    requires k <= |ms|
    ensures AbsAll(Rotate(ms, k)) == Rotate(AbsAll(ms), k)
  {
    hide AbsAll;
    assert ms == ms[..k] + ms[k..];
    AbsConcat(ms[..k], ms[k..]);
    AbsConcat(ms[k..], ms[..k]);
  }

  lemma OutboundAdvanced(pubs: multiset<Publication>, out: seq<Messages>, inb: seq<Messages>,
                         pending: multiset<Publication>,
                         k: nat, m: Messages)
    requires Registered(pubs, out, inb, pending) && k < |out| && m.publish == out[k].publish
    ensures Registered(pubs, out[k := m], inb, pending)
  {
    hide Refs;
    RefsUpdate(out, k, m);
    RefsRemove(out, k);
  }

  /** A message is replaced by one with another publication, or with none. */
  lemma SwapRef(pubs: multiset<Publication>, ms: seq<Messages>, others: multiset<Publication>, k: nat, m: Messages)
    requires Sole(pubs) && pubs == Refs(ms) + others && k < |ms|
    requires m.publish != null ==> m.publish !in pubs
    ensures var pubs' := pubs - RefOf(ms[k]) + RefOf(m);
            && pubs' == Refs(ms[k := m]) + others && Sole(pubs')
            && forall q :: q in pubs' ==> (q in pubs && q != ms[k].publish) || q == m.publish
    ensures ms[k].publish != null ==> ms[k].publish in pubs
  {
    hide Refs;
    DropRef(pubs, ms, others, k);
    RefsUpdate(ms, k, m);
    SwapSum(RefOf(m), Refs(Without(ms, k)), others);
    SoleMore(pubs - RefOf(ms[k]), m);
  }

  lemma SwapSum(a: multiset<Publication>, b: multiset<Publication>, c: multiset<Publication>)
    ensures (b + c) + a == (a + b) + c
  {
  }

  lemma SoleMore(pubs: multiset<Publication>, m: Messages)
    requires Sole(pubs) && (m.publish != null ==> m.publish !in pubs)
    ensures var pubs' := pubs + RefOf(m); Sole(pubs') && forall q :: q in pubs' <==> q in pubs || q == m.publish
  {
    var pubs' := pubs + RefOf(m);
    forall q | q in pubs' ensures q in pubs || q == m.publish {
      assert pubs'[q] == pubs[q] + RefOf(m)[q];
    }
  }

  lemma AbsAppend(ms: seq<Messages>, m: Messages)
    ensures AbsAll(ms + [m]) == AbsAll(ms) + [Abs(m)]
  {
    hide AbsAll;
  }

  lemma AbsUpdate(ms: seq<Messages>, k: nat, m: Messages)
    requires k < |ms|
    ensures AbsAll(ms[k := m]) == AbsAll(ms)[k := Abs(m)]
  {
    hide AbsAll;
  }

  lemma AbsRemove(ms: seq<Messages>, k: nat)
    requires k < |ms|
    ensures AbsAll(Without(ms, k)) == Without(AbsAll(ms), k)
  {
    hide AbsAll;
    var a, b := AbsAll(Without(ms, k)), Without(AbsAll(ms), k);
    assert |a| == |b|;
    forall i | 0 <= i < |a| ensures a[i] == b[i] {
      assert Without(ms, k)[i] == ms[if i < k then i else i + 1];
    }
  }

  lemma ResendsStep(ms: seq<Message>, due: set<nat>, k: nat)
    requires k < |ms|
    ensures Resends(ms, due, k) == if k in due then Resend(ms[k]) + Resends(ms, due, k + 1) else Resends(ms, due, k + 1)
  {
  }

  lemma ResendsEnd(ms: seq<Message>, due: set<nat>)
    ensures Resends(ms, due, |ms|) == []
  {
  }

  lemma ReceivedRemoved(store: Store, id: int)
    ensures Unpersist(store, false, id) == map x | x in store && !(x.id == id && x.kind == Received) :: store[x]
  {
  }

  class Client {
    const v5: bool                           // MQTTVersion >= MQTTVERSION_5
    var outboundMsgs: seq<Messages>
    var inboundMsgs: seq<Messages>
    var msgID: int
    var maxInflightMessages: int
    var store: Store                         // the persistence, if successful
    var delivered: seq<Entry>                // what Protocol_processPublication was called with, in order
    var wire: seq<Packet>                    // what was written to the socket, in order
    var publications: multiset<Publication>  // state.publications; nothing depends on the order of this list
    var pendingWrites: multiset<Publication> // state.pending_writes: QoS 0 publications still being written

    constructor (v5: bool, maxInflight: int)
      ensures Owned() && View() == FRESH && wire == [] && this.v5 == v5
    {
      this.v5 := v5;
      maxInflightMessages := maxInflight;
      outboundMsgs, inboundMsgs, msgID, store, delivered, wire := [], [], 0, map[], [], [];
      publications, pendingWrites := multiset{}, multiset{};
    }

    ghost function View(): Session
      reads this
    {
      Session(AbsAll(outboundMsgs), AbsAll(inboundMsgs), msgID, store, delivered)
    }

    /** The registry is exactly the publications referenced by inbound messages, outbound messages and pending
        writes, each by one owner, with reference count 1. */
    ghost predicate Owned()
      reads `outboundMsgs, `inboundMsgs, `publications, `pendingWrites, set p | p in publications
    {
      && Registered(publications, outboundMsgs, inboundMsgs, pendingWrites)
      && forall p :: p in publications ==> p.refcount == 1
    }

    // ---- small steps

    /** MQTTProtocol_storePublication. */
    method Store(content: Content) returns (p: Publication)
      modifies this`publications
      ensures fresh(p) && p.content == content && p.refcount == 1
      ensures publications == old(publications) + multiset{p}
    {
      p := new Publication(content);
      publications := publications + multiset{p};
    }

    /** MQTTProtocol_removePublication. */
    method RemovePublication(p: Publication?)
      modifies this`publications, p
      ensures p != null ==> p.refcount == old(p.refcount) - 1
      ensures publications ==
        if p == null || old(p.refcount) == 1 then old(publications) - RefTo(p) else old(publications)
    {
      assert publications - multiset{} == publications;
      if p != null {
        p.refcount := p.refcount - 1;
        if p.refcount == 0 {
          publications := publications - multiset{p};
        }
      }
    }

    method Transmit(p: Packet)
      modifies this`store, this`wire
      ensures wire == old(wire) + [p] && store == Persist(old(store), v5, p)
    {
      store := Persist(store, v5, p);
      wire := wire + [p];
    }

    method FindById(ms: seq<Messages>, id: int) returns (k: nat)
      ensures k == IndexOf(AbsAll(ms), id)
    {
      k := 0;
      while k < |ms| && ms[k].msgid != id
        invariant 0 <= k <= |ms|
        invariant forall j :: 0 <= j < k ==> ms[j].msgid != id
      {
        k := k + 1;
      }
      assert forall j :: 0 <= j < |ms| ==> AbsAll(ms)[j] == Abs(ms[j]);
    }

    /** Take a message out of the outbound list, with its publication. */
    method ReleaseOutboundAt(k: nat)
      requires Owned() && k < |outboundMsgs|
      modifies this`outboundMsgs, this`publications, set p | p in publications
      ensures Owned() && outboundMsgs == Without(old(outboundMsgs), k)
    {
      hide Refs, AbsAll, Registered;
      var p := outboundMsgs[k].publish;
      OutboundDropped(publications, outboundMsgs, inboundMsgs, pendingWrites, k);
      RemovePublication(p);
      outboundMsgs := Without(outboundMsgs, k);
    }

    method DropOutboundAt(k: nat)
      requires Owned() && k < |outboundMsgs|
      modifies this`outboundMsgs, this`publications, this`store, set p | p in publications
      ensures Owned() && View() == DropOutbound(old(View()), k)
    {
      hide Refs, AbsAll, Registered;
      AbsRemove(outboundMsgs, k);
      store := Unpersist(store, true, outboundMsgs[k].msgid);
      ReleaseOutboundAt(k);
    }

    // ---- sending

    method CreateMessage(c: Content, qos: int, retain: bool, id: int)
      requires Owned() && qos != 0
      modifies this`outboundMsgs, this`publications
      ensures Owned()
      ensures AbsAll(outboundMsgs) ==
        AbsAll(old(outboundMsgs)) + [Message(id, qos, retain, if qos == 2 then PubRec else Unset, c)]
    {
      hide Refs, AbsAll, Registered;
      ghost var pubs := publications;
      var p := Store(c);
      var m := Messages(id, qos, retain, if qos == 2 then PubRec else Unset, p);
      AbsAppend(outboundMsgs, m);
      OutboundAdded(pubs, outboundMsgs, inboundMsgs, pendingWrites, m);
      outboundMsgs := outboundMsgs + [m];
    }

    /** MQTTProtocol_storeQoS0: keep the publication until the interrupted write is finished. */
    method StoreQoS0(c: Content) returns (p: Publication)
      requires Owned()
      modifies this`publications, this`pendingWrites
      ensures Owned() && View() == old(View()) && pendingWrites == old(pendingWrites) + multiset{p}
      ensures p in publications && p.content == c
    {
      hide Refs, AbsAll, Registered;
      ghost var pubs := publications;
      p := Store(c);
      PendingAdded(pubs, outboundMsgs, inboundMsgs, pendingWrites, p);
      pendingWrites := pendingWrites + multiset{p};
    }

    /** MQTTProtocol_createMessage and MQTTProtocol_startPublish. The publication of a QoS 0 write that is
        interrupted is kept until it is finished. */
    method StartPublish(c: Content, qos: int, retain: bool, id: int, interrupted: bool)
      requires Owned() && 0 <= qos <= 2
      modifies this`outboundMsgs, this`publications, this`pendingWrites, this`store, this`wire, this`msgID
      ensures Owned()
      ensures var e := S.StartPublish(old(View()), v5, c, qos, retain, id);
              View() == e.s && wire == old(wire) + e.wire
      ensures var p := Packet.Publish(false, qos, retain, if qos == 0 then 0 else id, c);
              var m := Message(id, qos, retain, if qos == 2 then PubRec else Unset, c);
              && wire == old(wire) + [p]
              && store == (if qos == 0 then old(store) else old(store)[Key(Sent, v5, id) := p])
              && AbsAll(outboundMsgs) == AbsAll(old(outboundMsgs)) + (if qos == 0 then [] else [m])
              && msgID == (if qos == 0 then old(msgID) else id)
      ensures if qos == 0 && interrupted
              then exists p :: p in publications && p.content == c && pendingWrites == old(pendingWrites) + multiset{p}
              else pendingWrites == old(pendingWrites)
    {
      hide Refs, AbsAll, Registered;
      if qos == 0 {
        Transmit(Packet.Publish(false, 0, retain, 0, c));
        if interrupted {
          var p := StoreQoS0(c);
        }
      } else {
        StartTracked(c, qos, retain, id);
      }
    }

    method StartTracked(c: Content, qos: int, retain: bool, id: int)
      requires Owned() && qos != 0
      modifies this`outboundMsgs, this`publications, this`store, this`wire, this`msgID
      ensures Owned() && msgID == id
      ensures AbsAll(outboundMsgs) ==
        AbsAll(old(outboundMsgs)) + [Message(id, qos, retain, if qos == 2 then PubRec else Unset, c)]
      ensures var p := Packet.Publish(false, qos, retain, id, c);
              wire == old(wire) + [p] && store == Persist(old(store), v5, p)
    {
      hide Refs, AbsAll, Registered;
      CreateMessage(c, qos, retain, id);
      msgID := id;
      Transmit(Packet.Publish(false, qos, retain, id, c));
    }

    /** MQTTClient_publish5, up to the point where it blocks while too many messages are in flight. */
    method Publish(c: Content, qos: int, retain: bool, interrupted: bool) returns (r: PublishResult)
      requires Owned() && 0 <= qos <= 2 && 0 <= msgID <= MAX_MSG_ID
      requires msgID != 0 || exists i :: IsId(i) && i !in Ids(AbsAll(outboundMsgs))  // see MsgId.NeverEnds
      modifies this`outboundMsgs, this`publications, this`pendingWrites, this`store, this`wire, this`msgID
      ensures Owned() && |outboundMsgs| <= |old(outboundMsgs)| + 1
      ensures r == Blocked <==> |old(outboundMsgs)| >= maxInflightMessages
      ensures |outboundMsgs| > |old(outboundMsgs)| ==> |outboundMsgs| <= maxInflightMessages
      ensures r == NoMessageId ==> qos > 0 && Assign(old(msgID), Ids(AbsAll(old(outboundMsgs)))) == 0
      ensures r.Started? ==> qos == 0 || (r.id != 0 && r.id == Assign(old(msgID), Ids(AbsAll(old(outboundMsgs)))))
      ensures if r.Started? then
                var e := S.StartPublish(old(View()), v5, c, qos, retain, r.id);
                View() == e.s && wire == old(wire) + e.wire
              else View() == old(View()) && wire == old(wire)
    {
      hide Refs, AbsAll, Registered;
      if |outboundMsgs| >= maxInflightMessages {
        return Blocked;
      }
      var id := 0;
      if qos > 0 {
        id := AssignMsgId(msgID, Ids(AbsAll(outboundMsgs)));
        if id == 0 {
          return NoMessageId;
        }
      }
      StartPublish(c, qos, retain, id, interrupted);
      assert |AbsAll(outboundMsgs)| == |outboundMsgs| && |AbsAll(old(outboundMsgs))| == |old(outboundMsgs)|;
      return Started(id);
    }

    // ---- acknowledgements

    method HandlePuback(id: int)
      requires Owned()
      modifies this`outboundMsgs, this`publications, this`store, set p | p in publications
      ensures Owned() && View() == S.HandlePuback(old(View()), id)
      ensures var was, k := old(View()), IndexOf(old(View()).outbound, id);
              if k < |was.outbound| && was.outbound[k].qos == 1 then
                && AbsAll(outboundMsgs) == Without(was.outbound, k)
                && store ==
                     map x | x in was.store && !(x.id == id && (x.kind == Sent || x.kind == SentRel)) :: was.store[x]
              else AbsAll(outboundMsgs) == was.outbound && store == was.store
    {
      hide Refs, AbsAll, Registered;
      var k := FindById(outboundMsgs, id);
      if k < |outboundMsgs| && outboundMsgs[k].qos == 1 {
        DropOutboundAt(k);
      }
    }

    method Advance(k: nat)
      requires Owned() && k < |outboundMsgs|
      modifies this`outboundMsgs
      ensures Owned() && AbsAll(outboundMsgs) ==
        AbsAll(old(outboundMsgs))[k := Abs(old(outboundMsgs)[k]).(next := PubComp)]
    {
      hide Refs, AbsAll, Registered;
      var m := outboundMsgs[k].(next := PubComp);
      OutboundAdvanced(publications, outboundMsgs, inboundMsgs, pendingWrites, k, m);
      AbsUpdate(outboundMsgs, k, m);
      outboundMsgs := outboundMsgs[k := m];
    }

    /** The awaited PUBREC. */
    method TakePubrec(k: nat)
      requires Owned() && k < |outboundMsgs|
      modifies this`outboundMsgs, this`store, this`wire
      ensures Owned()
      ensures var s, m := old(View()), Abs(old(outboundMsgs)[k]);
              View() == s.(outbound := s.outbound[k := m.(next := PubComp)],
                           store := Persist(s.store, v5, Packet.Pubrel(m.msgid)))
      ensures wire == old(wire) + [Packet.Pubrel(old(outboundMsgs)[k].msgid)]
    {
      hide Refs, AbsAll, Registered;
      var id := outboundMsgs[k].msgid;
      Advance(k);
      Transmit(Packet.Pubrel(id));
    }

    method HandlePubrec(id: int, rc: int)
      requires Owned()
      modifies this`outboundMsgs, this`publications, this`store, this`wire, set p | p in publications
      ensures Owned()
      ensures var e := S.HandlePubrec(old(View()), v5, id, rc); View() == e.s && wire == old(wire) + e.wire
      ensures var was, k := old(View()), IndexOf(old(View()).outbound, id);
              var awaited := k < |was.outbound| && was.outbound[k].qos == 2 && was.outbound[k].next == PubRec;
              if awaited && v5 && rc >= 128 then
                && wire == old(wire)
                && AbsAll(outboundMsgs) == Without(was.outbound, k)
                && store ==
                     map x | x in was.store && !(x.id == id && (x.kind == Sent || x.kind == SentRel)) :: was.store[x]
              else
                && wire == old(wire) + [Packet.Pubrel(id)]
                && AbsAll(outboundMsgs) ==
                     (if awaited then was.outbound[k := was.outbound[k].(next := PubComp)] else was.outbound)
                && store == was.store[Key(SentRel, v5, id) := Packet.Pubrel(id)]
    {
      hide Refs, AbsAll, Registered;
      var k := FindById(outboundMsgs, id);
      if k == |outboundMsgs| || outboundMsgs[k].qos != 2 || outboundMsgs[k].next != PubRec {
        Transmit(Packet.Pubrel(id));
      } else if v5 && rc >= 128 {
        DropOutboundAt(k);  // MQTT 5: an error ends the exchange, no PUBREL
      } else {
        TakePubrec(k);
      }
    }

    method HandlePubcomp(id: int)
      requires Owned()
      modifies this`outboundMsgs, this`publications, this`store, set p | p in publications
      ensures Owned() && View() == S.HandlePubcomp(old(View()), id)
      ensures var was, k := old(View()), IndexOf(old(View()).outbound, id);
              if k < |was.outbound| && was.outbound[k].qos == 2 && was.outbound[k].next == PubComp then
                && AbsAll(outboundMsgs) == Without(was.outbound, k)
                && store ==
                     map x | x in was.store && !(x.id == id && (x.kind == Sent || x.kind == SentRel)) :: was.store[x]
              else AbsAll(outboundMsgs) == was.outbound && store == was.store
    {
      hide Refs, AbsAll, Registered;
      var k := FindById(outboundMsgs, id);
      if k < |outboundMsgs| && outboundMsgs[k].qos == 2 && outboundMsgs[k].next == PubComp {
        DropOutboundAt(k);
      }
    }

    // ---- inbound messages

    /** MQTTProtocol_storePublication, and the message appended to the inbound list. */
    method AppendInbound(c: Content, id: int, retain: bool) returns (p: Publication)
      requires Owned()
      modifies this`inboundMsgs, this`publications
      ensures Owned() && p.content == c && inboundMsgs == old(inboundMsgs) + [Messages(id, 2, retain, PubRel, p)]
    {
      hide Refs, AbsAll, Registered;
      ghost var pubs := publications;
      p := Store(c);
      var m := Messages(id, 2, retain, PubRel, p);
      InboundAdded(pubs, outboundMsgs, inboundMsgs, pendingWrites, m);
      inboundMsgs := inboundMsgs + [m];
    }

    /** Store a publication, then remove the one whose place it takes. */
    method StoreInstead(c: Content, was: Publication?) returns (p: Publication)
      requires was != null ==> was in publications && was.refcount == 1
      modifies this`publications, was
      ensures fresh(p) && p.content == c && p.refcount == 1
      ensures publications == old(publications) - RefTo(was) + RefTo(p)
    {
      ghost var pubs := publications;
      p := Store(c);
      StoredThenRemoved(pubs, p, was);
      hide RefTo;
      RemovePublication(was);
    }

    /** A duplicate PUBLISH: the queued publication is removed and the new one takes the place of the message. */
    method ReplaceInbound(k: nat, c: Content, retain: bool)
      requires Owned() && k < |inboundMsgs|
      modifies this`inboundMsgs, this`publications, set p | p in publications
      ensures Owned()
      ensures AbsAll(inboundMsgs) ==
        AbsAll(old(inboundMsgs))[k := Message(old(inboundMsgs)[k].msgid, 2, retain, PubRel, c)]
    {
      hide Refs, AbsAll, Registered;
      ghost var pubs := publications;
      InboundDropped(pubs, outboundMsgs, inboundMsgs, pendingWrites, k);
      var p := StoreInstead(c, inboundMsgs[k].publish);
      var m := Messages(inboundMsgs[k].msgid, 2, retain, PubRel, p);
      InboundSwapped(pubs, outboundMsgs, inboundMsgs, pendingWrites, k, m);
      AbsUpdate(inboundMsgs, k, m);
      hide RefTo;
      inboundMsgs := inboundMsgs[k := m];
    }

    /** Version 5, first PUBLISH: hand the publication over and keep the message without it. */
    method GiveAway(k: nat)
      requires Owned() && k < |inboundMsgs| && inboundMsgs[k].publish != null
      modifies this`inboundMsgs, this`publications, this`delivered
      ensures Owned()
      ensures AbsAll(inboundMsgs) == AbsAll(old(inboundMsgs))[k := Abs(old(inboundMsgs)[k]).(body := NoContent)]
      ensures delivered ==
        old(delivered) + [Entry(Abs(old(inboundMsgs)[k]).body, old(inboundMsgs)[k].qos, old(inboundMsgs)[k].retain)]
    {
      hide Refs, AbsAll, Registered;
      var m := inboundMsgs[k];
      InboundSwapped(publications, outboundMsgs, inboundMsgs, pendingWrites, k, m.(publish := null));
      AbsUpdate(inboundMsgs, k, m.(publish := null));
      delivered := delivered + [Entry(m.publish.content, m.qos, m.retain)];
      publications := publications - multiset{m.publish};
      inboundMsgs := inboundMsgs[k := m.(publish := null)];
      assert publications == old(publications) - RefOf(m) + RefOf(m.(publish := null));
    }

    method HandlePublish(p: Packet)
      requires Owned() && p.Publish?
      modifies this`inboundMsgs, this`publications, this`store, this`wire, this`delivered, set q | q in publications
      ensures Owned()
      ensures var e := S.HandlePublish(old(View()), v5, p); View() == e.s && wire == old(wire) + e.wire
      ensures p.qos == 0 ==> wire == old(wire) && delivered == old(delivered) + [Entry(p.content, 0, p.retain)]
      ensures p.qos == 1 ==>
        wire == old(wire) + [Packet.Puback(p.msgid)] && delivered == old(delivered) + [Entry(p.content, 1, p.retain)]
      ensures p.qos != 2 ==> AbsAll(inboundMsgs) == AbsAll(old(inboundMsgs)) && store == old(store)
      ensures p.qos == 2 ==>
                var was, k := AbsAll(old(inboundMsgs)), IndexOf(AbsAll(old(inboundMsgs)), p.msgid);
                var first := k == |was|;
                && wire == old(wire) + [Packet.Pubrec(p.msgid, 0)]
                && store == old(store)[Key(Received, v5, p.msgid) := p]
                && delivered == old(delivered) + (if v5 && first then [Entry(p.content, 2, p.retain)] else [])
                && AbsAll(inboundMsgs) ==
                     var m := Message(p.msgid, 2, p.retain, PubRel, if v5 && first then NoContent else p.content);
                     if first then was + [m] else was[k := m]
    {
      hide Refs, AbsAll, Registered;
      if p.qos == 0 {
        delivered := delivered + [Entry(p.content, 0, p.retain)];
      } else if p.qos == 1 {
        delivered := delivered + [Entry(p.content, 1, p.retain)];
        Transmit(Packet.Puback(p.msgid));
      } else if p.qos == 2 {
        HandleQos2(p);
      }
    }

    method HandleQos2(p: Packet)
      requires Owned() && p.Publish? && p.qos == 2
      modifies this`inboundMsgs, this`publications, this`store, this`wire, this`delivered, set q | q in publications
      ensures Owned()
      ensures var e := S.HandlePublish(old(View()), v5, p); View() == e.s && wire == old(wire) + e.wire
    {
      hide Refs, AbsAll, Registered;
      store := store[Key(Received, v5, p.msgid) := p];  // MQTTPacket_Factory
      ListQos2(p);
      Transmit(Packet.Pubrec(p.msgid, 0));
    }

    method ListQos2(p: Packet)
      requires Owned() && p.Publish? && p.qos == 2
      modifies this`inboundMsgs, this`publications, this`delivered, set q | q in publications
      ensures Owned()
      ensures var s := S.HandlePublish(old(View()), v5, p).s;
              AbsAll(inboundMsgs) == s.inbound && delivered == s.delivered
    {
      hide Refs, AbsAll, Registered;
      var k := FindById(inboundMsgs, p.msgid);
      if k < |inboundMsgs| {
        ReplaceInbound(k, p.content, p.retain);
      } else {
        FirstPublish(p);
      }
    }

    method FirstPublish(p: Packet)
      requires Owned() && p.Publish? && p.qos == 2
      modifies this`inboundMsgs, this`publications, this`delivered
      ensures Owned()
      ensures AbsAll(inboundMsgs) ==
        AbsAll(old(inboundMsgs)) + [Message(p.msgid, 2, p.retain, PubRel, if v5 then NoContent else p.content)]
      ensures delivered == if v5 then old(delivered) + [Entry(p.content, 2, p.retain)] else old(delivered)
    {
      hide Refs, AbsAll, Registered;
      var q := AppendInbound(p.content, p.msgid, p.retain);
      AbsAppend(old(inboundMsgs), Messages(p.msgid, 2, p.retain, PubRel, q));
      if v5 {
        GiveAway(|inboundMsgs| - 1);
      }
    }

    /** PUBREL for a message in the list: version 3.1.1 delivers now. ListRemove takes the publication straight
        from the registry. */
    method ReleaseInboundAt(k: nat)
      requires Owned() && k < |inboundMsgs|
      modifies this`inboundMsgs, this`publications
      ensures Owned() && AbsAll(inboundMsgs) == Without(AbsAll(old(inboundMsgs)), k)
    {
      hide Refs, AbsAll, Registered;
      var m := inboundMsgs[k];
      InboundDropped(publications, outboundMsgs, inboundMsgs, pendingWrites, k);
      AbsRemove(inboundMsgs, k);
      if m.publish != null {
        publications := publications - multiset{m.publish};
      } else {
        assert publications - RefOf(m) == publications;
      }
      inboundMsgs := Without(inboundMsgs, k);
    }

    method HandlePubrel(id: int)
      requires Owned()
      modifies this`inboundMsgs, this`publications, this`store, this`wire, this`delivered
      ensures Owned()
      ensures var e := S.HandlePubrel(old(View()), v5, id); View() == e.s && wire == old(wire) + e.wire
      ensures wire == old(wire) + [Packet.Pubcomp(id)]
      ensures var was, k := old(View()), IndexOf(old(View()).inbound, id);
              if k < |was.inbound| && was.inbound[k].qos == 2 && was.inbound[k].next == PubRel then
                && AbsAll(inboundMsgs) == Without(was.inbound, k)
                && delivered ==
                     was.delivered + (if v5 then [] else [Entry(was.inbound[k].body, 2, was.inbound[k].retain)])
                && store == map x | x in was.store && !(x.id == id && x.kind == Received) :: was.store[x]
              else AbsAll(inboundMsgs) == was.inbound && delivered == was.delivered && store == was.store
    {
      hide Refs, AbsAll, Registered, Unpersist, IndexOf;
      var k := FindById(inboundMsgs, id);
      if k < |inboundMsgs| && inboundMsgs[k].qos == 2 && inboundMsgs[k].next == PubRel {
        ReceivedRemoved(store, id);
        TakePubrel(k);
        assert View() == S.HandlePubrel(old(View()), v5, id).s;
      }
      Transmit(Packet.Pubcomp(id));
    }

    /** The awaited PUBREL. */
    method TakePubrel(k: nat)
      requires Owned() && k < |inboundMsgs|
      modifies this`inboundMsgs, this`publications, this`store, this`delivered
      ensures Owned() && AbsAll(inboundMsgs) == Without(AbsAll(old(inboundMsgs)), k)
      ensures var m := Abs(old(inboundMsgs)[k]);
              && delivered == old(delivered) + (if v5 then [] else [Entry(m.body, m.qos, m.retain)])
              && store == Unpersist(old(store), false, m.msgid)
    {
      hide Refs, AbsAll, Registered, Unpersist;
      var m := inboundMsgs[k];
      if !v5 {
        delivered := delivered + [Entry(if m.publish == null then NoContent else m.publish.content, m.qos, m.retain)];
      }
      store := Unpersist(store, false, m.msgid);
      ReleaseInboundAt(k);
    }

    // ---- retries

    method RetryOne(m: Messages) returns (ghost ps: seq<Packet>)
      modifies this`store, this`wire
      ensures ps == Resend(Abs(m)) && store == PersistAll(old(store), v5, ps) && wire == old(wire) + ps
    {
      ps := Resend(Abs(m));
      if m.qos == 1 || (m.qos == 2 && m.next == PubRec) {
        assert ps[1..] == [];
        Transmit(Packet.Publish(true, m.qos, m.retain, m.msgid,
                                if m.publish == null then NoContent else m.publish.content));
      } else if m.qos != 0 && m.next == PubComp {
        assert ps[1..] == [];
        Transmit(Packet.Pubrel(m.msgid));
      }
    }

    method RetryList(due: set<nat>) returns (ghost sent: seq<Packet>)
      modifies this`store, this`wire
      ensures sent == Resends(AbsAll(outboundMsgs), due, 0)
      ensures store == PersistAll(old(store), v5, sent) && wire == old(wire) + sent
    {
      hide AbsAll, Resend, Resends, Persist;
      var k := 0;
      ghost var out := AbsAll(outboundMsgs);
      sent := [];
      ghost var rest := Resends(out, due, 0);
      while k < |outboundMsgs|
        invariant 0 <= k <= |outboundMsgs| == |out|
        invariant rest == Resends(out, due, k) && sent + rest == Resends(out, due, 0)
        invariant store == PersistAll(old(store), v5, sent) && wire == old(wire) + sent
      {
        ResendsStep(out, due, k);
        rest := Resends(out, due, k + 1);
        if k in due {
          ghost var ps := RetryOne(outboundMsgs[k]);
          PersistAllConcat(old(store), v5, sent, ps);
          assert sent + (ps + rest) == (sent + ps) + rest;
          sent := sent + ps;
        }
        k := k + 1;
      }
      ResendsEnd(out, due);
    }

    /** MQTTProtocol_retries: `due` are the positions reached while the socket was writable whose time had come. */
    method Retries(due: set<nat>)
      modifies this`store, this`wire
      ensures var e := S.Retry(old(View()), v5, due); View() == e.s && wire == old(wire) + e.wire
    {
      hide AbsAll, PersistAll, Resends;
      ghost var sent := RetryList(due);
    }

    // ---- session cleaning and QoS 0 writes

    method EmptyOutbound()
      requires Owned()
      modifies this`outboundMsgs, this`publications, set p | p in publications
      ensures Owned() && outboundMsgs == []
    {
      hide Refs, Registered;
      var i := 0;
      assert outboundMsgs[0..] == outboundMsgs;
      while i < |outboundMsgs|
        invariant 0 <= i <= |outboundMsgs| && outboundMsgs == old(outboundMsgs)
        invariant Registered(publications, outboundMsgs[i..], inboundMsgs, pendingWrites)
        invariant forall p :: p in publications ==> p in old(publications) && p.refcount == 1
      {
        var rest := outboundMsgs[i..];
        OutboundDropped(publications, rest, inboundMsgs, pendingWrites, 0);
        assert Without(rest, 0) == outboundMsgs[i + 1..];
        RemovePublication(outboundMsgs[i].publish);
        i := i + 1;
      }
      assert outboundMsgs[i..] == [];
      outboundMsgs := [];
    }

    method EmptyInbound()
      requires Owned()
      modifies this`inboundMsgs, this`publications, set p | p in publications
      ensures Owned() && inboundMsgs == [] && forall p :: p in publications ==> p in old(publications)
    {
      hide Refs, Registered;
      var i := 0;
      assert inboundMsgs[0..] == inboundMsgs;
      while i < |inboundMsgs|
        invariant 0 <= i <= |inboundMsgs| && inboundMsgs == old(inboundMsgs)
        invariant Registered(publications, outboundMsgs, inboundMsgs[i..], pendingWrites)
        invariant forall p :: p in publications ==> p in old(publications) && p.refcount == 1
      {
        var rest := inboundMsgs[i..];
        InboundDropped(publications, outboundMsgs, rest, pendingWrites, 0);
        assert Without(rest, 0) == inboundMsgs[i + 1..];
        RemovePublication(inboundMsgs[i].publish);
        i := i + 1;
      }
      assert inboundMsgs[i..] == [];
      inboundMsgs := [];
    }

    method EmptyLists()
      requires Owned()
      modifies this`outboundMsgs, this`inboundMsgs, this`publications, set p | p in publications
      ensures Owned() && outboundMsgs == [] && inboundMsgs == [] && publications == pendingWrites
    {
      hide Refs, Registered;
      EmptyInbound();
      EmptyOutbound();
      NoneListed(publications, pendingWrites);
    }

    /** MQTTClient_cleanSession. */
    method CleanSession()
      requires Owned()
      modifies this`outboundMsgs, this`inboundMsgs, this`publications, this`store, this`msgID, set p | p in publications
      ensures Owned() && View() == Clean(old(View())) && publications == pendingWrites
      ensures outboundMsgs == [] && inboundMsgs == [] && store == map[] && msgID == 0
    {
      hide Refs, Registered;
      store, msgID := map[], 0;
      EmptyLists();
    }

    /** What checkPendingWrites does with a write that is no longer pending. */
    method FinishWrite(p: Publication)
      requires Owned() && p in pendingWrites
      modifies this`publications, this`pendingWrites, p
      ensures Owned() && View() == old(View()) && pendingWrites == old(pendingWrites) - multiset{p}
      ensures forall q :: q in publications ==> q in old(publications)
    {
      hide Refs, AbsAll, Registered;
      PendingDropped(publications, outboundMsgs, inboundMsgs, pendingWrites, p);
      RemovePublication(p);
      pendingWrites := pendingWrites - multiset{p};
    }

    /** MQTTProtocol_checkPendingWrites over the entries of the list; `busy` are the sockets that still have
        something to write. What it leaves in the list is InFlightList.CheckPendingWrites. */
    method ReleaseFinished(writes: seq<PendingWrite>, busy: set<int>)
      requires Owned() && pendingWrites == Owners(writes)
      modifies this`publications, this`pendingWrites, set p | p in publications
      ensures Owned() && View() == old(View())
      ensures pendingWrites == Owners(InFlightList.Keep(writes, (w: PendingWrite) => w.socket !in busy))
    {
      hide Refs, AbsAll, Registered, Owners, InFlightList.Keep;
      var done := (w: PendingWrite) => w.socket !in busy;
      var i := 0;
      ghost var left := Owners(InFlightList.Keep(writes, done));
      ghost var kept := multiset{};
      assert writes[0..] == writes;
      NoOwners(done);
      while i < |writes|
        invariant 0 <= i <= |writes| && Owned() && View() == old(View())
        invariant pendingWrites == Owners(writes[i..]) + kept
        invariant left == Owners(InFlightList.Keep(writes[i..], done)) + kept
        invariant forall p :: p in publications ==> p in old(publications)
      {
        var w := writes[i];
        OwnersStep(pendingWrites, left, writes[i..], kept, done);
        assert writes[i..][1..] == writes[i + 1..];
        PendingRegistered(publications, outboundMsgs, inboundMsgs, pendingWrites, w.p);
        if w.socket in busy {
          kept := kept + multiset{w.p};
        } else {
          FinishWrite(w.p);
        }
        i := i + 1;
      }
      assert writes[i..] == [];
    }

    // ---- recovery

    method InsertOutbound(m: Message)
      requires Owned()
      modifies this`outboundMsgs, this`publications
      ensures Owned() && AbsAll(outboundMsgs) == InsertInOrder(AbsAll(old(outboundMsgs)), m)
    {
      hide Refs, AbsAll, Registered, InsertPoint;
      ghost var pubs := publications;
      var p := Store(m.body);
      var x := Messages(m.msgid, m.qos, m.retain, m.next, p);
      var k := InsertPoint(AbsAll(outboundMsgs), m.msgid);
      OutboundInserted(pubs, outboundMsgs, inboundMsgs, pendingWrites, k, x);
      AbsInsert(outboundMsgs, k, x);
      outboundMsgs := outboundMsgs[..k] + [x] + outboundMsgs[k..];
    }

    method RestoreInbound(c: Content, id: int, qos: int, retain: bool)
      requires Owned()
      modifies this`inboundMsgs, this`publications
      ensures Owned() && AbsAll(inboundMsgs) == AbsAll(old(inboundMsgs)) + [Message(id, qos, retain, PubRel, c)]
    {
      hide Refs, AbsAll, Registered;
      ghost var pubs := publications;
      var p := Store(c);
      var m := Messages(id, qos, retain, PubRel, p);
      InboundAdded(pubs, outboundMsgs, inboundMsgs, pendingWrites, m);
      AbsAppend(inboundMsgs, m);
      inboundMsgs := inboundMsgs + [m];
    }

    ghost function AsRestored(ok: bool): Restored
      reads this
    {
      Restored(AbsAll(outboundMsgs), AbsAll(inboundMsgs), store, ok)
    }

    method RestoreOne(key: Key) returns (ok: bool)
      requires Owned() && key in store
      modifies this`outboundMsgs, this`inboundMsgs, this`publications, this`store
      ensures Owned() && AsRestored(ok) == RestoreKey(old(AsRestored(true)), v5, key)
      ensures key.v5 && !v5 ==> !ok && AsRestored(false) == old(AsRestored(false))
    {
      hide Refs, AbsAll, Registered, InsertPoint;
      ok := true;
      if key.v5 && !v5 {
        ok := false;
      } else {
        match (key.kind, store[key])
        case (Received, Publish(_, qos, retain, id, c)) =>
          RestoreInbound(if v5 then NoContent else c, id, qos, retain);
        case (Sent, Publish(_, qos, retain, id, c)) =>
          InsertOutbound(Message(id, qos, retain, RestoredNext(store, v5, id, qos), c));
        case (SentRel, Pubrel(id)) =>
          if Key(Sent, v5, id) !in store {
            store := store - {key};
          }
        case (_, Unparsed) =>
          store := store - {key};
        case _ =>
      }
    }

    method WrapOutbound()
      requires Owned()
      modifies this`outboundMsgs
      ensures Owned() && AbsAll(outboundMsgs) == Wrap(AbsAll(old(outboundMsgs)))
    {
      hide Refs, AbsAll, Registered, WidestGap;
      if outboundMsgs != [] {
        var w := WidestGap(AbsAll(outboundMsgs), |outboundMsgs| - 1);
        OutboundRotated(publications, outboundMsgs, inboundMsgs, pendingWrites, w);
        AbsRotate(outboundMsgs, w);
        outboundMsgs := Rotate(outboundMsgs, w);
      }
    }

    /** MQTTPersistence_restorePackets, for whatever order the store lists its keys in. */
    method RestorePackets(keys: seq<Key>) returns (ok: bool)
      requires Owned() && outboundMsgs == [] && inboundMsgs == [] && Listing(keys, store)
      modifies this`outboundMsgs, this`inboundMsgs, this`publications, this`store
      ensures Owned() && AsRestored(ok) == Recovery.RestorePackets(old(store), v5, keys)
      ensures ok <==> v5 || forall i :: 0 <= i < |keys| ==> !keys[i].v5
      ensures forall k :: k in store ==> k in old(store) && store[k] == old(store)[k]
      ensures !v5 ==> forall k :: k in old(store) && k.v5 ==> k in store
    {
      hide Refs, Registered, RestoreKey, Wrap;
      ghost var r0 := AsRestored(true);
      assert AbsAll([]) == [];
      assert keys[0..] == keys;
      var i := 0;
      ok := true;
      while i < |keys| && ok
        invariant 0 <= i <= |keys| && Owned()
        invariant Listing(keys[i..], store) && RestoreKeys(AsRestored(ok), v5, keys[i..]) == RestoreKeys(r0, v5, keys)
      {
        ghost var r := AsRestored(true);
        assert keys[i..][0] == keys[i] && keys[i..][1..] == keys[i + 1..];
        NextListing(r, v5, keys[i..]);
        ok := RestoreOne(keys[i]);
        assert AsRestored(ok) == RestoreKey(r, v5, keys[i]);
        i := i + 1;
      }
      assert RestoreKeys(r0, v5, keys) == AsRestored(ok);
      VersionRefused(r0, v5, keys);
      if ok {
        WrapOutbound();
      }
    }
  }

  datatype PublishResult = Blocked | NoMessageId | Started(id: int)
}
