/** One client's outgoing messages against any peer at all: acknowledgements come whenever they like, for any id and
    with any reason code. Over every run with retries and restarts: when a message leaves the list, that it is gone for
    good then, and which packets carry the DUP flag. */
module Outgoing {
  import opened MsgId
  import opened Session
  import opened Recovery
  import opened Sequences
  import D = Delivery

  /** `written` is everything written to the socket so far. */
  datatype State = State(client: Session, published: seq<Entry>, written: seq<Packet>)

  datatype Step =
    | PublishCall(topic: seq<int>, payload: seq<int>, qos: int, retain: bool)
    | Takes(p: Packet)
    | RetryPass(due: set<nat>)
    | Restarts(keys: seq<Key>)

  const START := State(FRESH, [], [])

  function NewId(c: Session): int {
    Assign(c.msgID, Ids(c.outbound))
  }

  ghost predicate Enabled(s: State, step: Step) {
    match step
    case PublishCall(_, _, qos, _) => qos == 0 || ((qos == 1 || qos == 2) && NewId(s.client) != 0)
    case Takes(p) => D.IsAck(p)
    case RetryPass(_) => true
    case Restarts(keys) => Listing(keys, s.client.store) && forall k :: k in s.client.store ==> k in keys
  }

  ghost function Do(s: State, v5: bool, step: Step): State
    requires Enabled(s, step)
  {
    match step
    case PublishCall(topic, payload, qos, retain) =>
      var c := Content(|s.published|, topic, payload);
      var e := StartPublish(s.client, v5, c, qos, retain, NewId(s.client));
      State(e.s, s.published + [Entry(c, qos, retain)], s.written + e.wire)
    case Takes(p) =>
      var e := D.SenderHandles(s.client, v5, p);
      s.(client := e.s, written := s.written + e.wire)
    case RetryPass(due) =>
      var e := Retry(s.client, v5, due);
      s.(client := e.s, written := s.written + e.wire)
    case Restarts(keys) => s.(client := D.Restart(s.client, v5, keys))
  }

  ghost predicate Run(v5: bool, states: seq<State>, steps: seq<Step>) {
    && |states| == |steps| + 1 && states[0] == START
    && forall k :: 0 <= k < |steps| ==> Enabled(states[k], steps[k]) && states[k + 1] == Do(states[k], v5, steps[k])
  }

  // ---- the invariant

  /** A stray PUBREL record may give a restored QoS 1 message any handshake state. */
  ghost predicate Form(m: Message) {
    m.qos == 1 || (m.qos == 2 && (m.next == PubRec || m.next == PubComp))
  }

  ghost predicate Listed(out: seq<Message>, published: seq<Entry>) {
    && DistinctIds(out)
    && (forall m :: m in out ==> Form(m) && IsId(m.msgid) && D.Genuine(published, Entry(m.body, m.qos, m.retain)))
    && (forall a, b :: a in out && b in out && a.body == b.body ==> a == b)
  }

  /** The store has the PUBLISH of every listed message, no other, and whatever PUBREL records. */
  ghost predicate Stored(v5: bool, out: seq<Message>, store: Store) {
    && (forall m :: m in out ==> RecordOf(store, Key(Sent, v5, m.msgid), m))
    && (forall k :: k in store ==>
          && k.v5 == v5 && k.kind != Received
          && (k.kind == Sent ==> k.id in Ids(out))
          && (k.kind == SentRel ==> store[k] == Pubrel(k.id)))
  }

  ghost predicate Carries(p: Packet, n: nat) {
    p.Publish? && p.content.Content? && p.content.serial == n
  }

  ghost predicate CarriedBefore(written: seq<Packet>, k: int, n: nat) {
    exists j :: 0 <= j < k && j < |written| && Carries(written[j], n)
  }

  /** Every PUBLISH written is a message as it was published, the first of them without the DUP flag, the others with
      it. */
  ghost predicate Flagged(written: seq<Packet>, published: seq<Entry>) {
    && (forall k :: 0 <= k < |written| && written[k].Publish? ==>
          var p := written[k];
          D.Genuine(published, Entry(p.content, p.qos, p.retain)) &&
          (p.dup <==> CarriedBefore(written, k, p.content.serial)))
    && forall n: nat :: n < |published| ==> CarriedBefore(written, |written|, n)
  }

  ghost predicate Inv(v5: bool, s: State) {
    && s.client.inbound == [] && 0 <= s.client.msgID <= MAX_MSG_ID
    && Listed(s.client.outbound, s.published) && Stored(v5, s.client.outbound, s.client.store)
    && Flagged(s.written, s.published)
  }

  // ---- what each step does to the list

  /** The acknowledgements that end a message's stay in the list. */
  ghost predicate Ends(v5: bool, m: Message, p: Packet) {
    match p
    case Puback(id) => id == m.msgid && m.qos == 1
    case Pubrec(id, rc) => id == m.msgid && m.qos == 2 && m.next == PubRec && v5 && rc >= 128
    case Pubcomp(id) => id == m.msgid && m.qos == 2 && m.next == PubComp
    case _ => false
  }

  /** The message is still there, though perhaps in another handshake state. */
  ghost predicate Still(m: Message, o: Found) {
    o.Some? && o.m == m.(next := o.m.next)
  }

  ghost predicate Law(v5: bool, s: State, step: Step, now: seq<Message>)
    requires Enabled(s, step)
  {
    forall id ::
      var was, has := Find(s.client.outbound, id), Find(now, id);
      if was.Some? then (if step.Takes? && Ends(v5, was.m, step.p) then has == None else Still(was.m, has))
      else if step.PublishCall? && step.qos != 0 && id == NewId(s.client)
      then has == Some(Message(id, step.qos, step.retain, if step.qos == 2 then PubRec else Unset,
                              Content(|s.published|, step.topic, step.payload)))
      else has == None
  }

  lemma GenuineLater(published: seq<Entry>, e: Entry)
    ensures forall x :: D.Genuine(published, x) ==> D.Genuine(published + [e], x)
  {
  }

  /** A list that obeys the law is in order again. */
  lemma ListedAgain(v5: bool, s: State, step: Step, now: seq<Message>, published: seq<Entry>)
    requires Inv(v5, s) && Enabled(s, step) && Law(v5, s, step, now)
    requires DistinctIds(now) && forall m :: m in now ==> Form(m)
    requires published == if step.PublishCall?
                          then s.published +
                               [Entry(Content(|s.published|, step.topic, step.payload), step.qos, step.retain)]
                          else s.published
    ensures Listed(now, published)
  {
    var out := s.client.outbound;
    if step.PublishCall? { GenuineLater(s.published, published[|s.published|]); }
    AssignSpec(s.client.msgID, Ids(out));
    forall m | m in now
      ensures IsId(m.msgid) && D.Genuine(published, Entry(m.body, m.qos, m.retain))
      ensures var was := Find(out, m.msgid);
              if was.Some? then was.m in out && was.m.body == m.body
              else m.msgid == NewId(s.client) && m.body.Content? && m.body.serial == |s.published|
    {
      FindMember(now, m.msgid);
      FindMember(out, m.msgid);
    }
    forall a, b | a in now && b in now && a.body == b.body ensures a == b {
      FindMember(out, a.msgid);
      FindMember(out, b.msgid);
      assert a.msgid == b.msgid;
      SameId(now, a, b);
    }
  }

  lemma PublishLaw(v5: bool, s: State, step: Step)
    requires Inv(v5, s) && Enabled(s, step) && step.PublishCall?
    ensures var t := Do(s, v5, step);
            && Law(v5, s, step, t.client.outbound) && DistinctIds(t.client.outbound)
            && Stored(v5, t.client.outbound, t.client.store) && forall m :: m in t.client.outbound ==> Form(m)
  {
    var out, t := s.client.outbound, Do(s, v5, step);
    var id := NewId(s.client);
    AssignSpec(s.client.msgID, Ids(out));
    if step.qos != 0 {
      var m := t.client.outbound[|out|];
      FindMember(out, id);
      FindAppend(out, m);
      PublishStored(v5, out, s.client.store, m);
    }
  }

  lemma PublishStored(v5: bool, out: seq<Message>, store: Store, m: Message)
    requires Stored(v5, out, store) && m.msgid !in Ids(out)
    ensures Stored(v5, out + [m], store[Key(Sent, v5, m.msgid) := Publish(false, m.qos, m.retain, m.msgid, m.body)])
  {
    var now, store' := out + [m], store[Key(Sent, v5, m.msgid) := Publish(false, m.qos, m.retain, m.msgid, m.body)];
    forall x | x in now ensures RecordOf(store', Key(Sent, v5, x.msgid), x) {
      if x in out {
        assert x.msgid in Ids(out);
        assert RecordOf(store, Key(Sent, v5, x.msgid), x);
      }
    }
    assert m in now;
    assert forall x :: x in out ==> x in now;
  }

  lemma DropStored(v5: bool, out: seq<Message>, store: Store, id: int, now: seq<Message>)
    requires Stored(v5, out, store) && forall x :: x in now <==> x in out && x.msgid != id
    ensures Stored(v5, now, Unpersist(store, true, id))
  {
    var store' := Unpersist(store, true, id);
    forall x | x in now ensures RecordOf(store', Key(Sent, v5, x.msgid), x) {
      assert RecordOf(store, Key(Sent, v5, x.msgid), x);
    }
    forall i | i in Ids(out) && i != id ensures i in Ids(now) {
      var x :| x in out && x.msgid == i;
      assert x in now;
    }
  }

  lemma DropLaw(v5: bool, c: Session, k: nat)
    requires DistinctIds(c.outbound) && k < |c.outbound| && Stored(v5, c.outbound, c.store)
    ensures var t := DropOutbound(c, k);
            && DistinctIds(t.outbound) && Stored(v5, t.outbound, t.store)
            && (forall id :: Find(t.outbound, id) == if id == c.outbound[k].msgid then None else Find(c.outbound, id))
            && forall x :: x in t.outbound ==> x in c.outbound
  {
    FindRemove(c.outbound, k);
    D.WithoutMembers(c.outbound, k);
    hide Find, DistinctIds, Without, Stored, Unpersist;
    DropStored(v5, c.outbound, c.store, c.outbound[k].msgid, Without(c.outbound, k));
  }

  lemma AdvanceLaw(v5: bool, c: Session, k: nat)
    requires DistinctIds(c.outbound) && k < |c.outbound| && Stored(v5, c.outbound, c.store)
    ensures var m := c.outbound[k].(next := PubComp);
            var now := c.outbound[k := m];
            && DistinctIds(now) && Stored(v5, now, c.store[Key(SentRel, v5, m.msgid) := Pubrel(m.msgid)])
            && (forall id :: Find(now, id) == if id == m.msgid then Some(m) else Find(c.outbound, id))
            && forall x :: x in now ==> x == m || x in c.outbound
  {
    var m := c.outbound[k].(next := PubComp);
    var now := c.outbound[k := m];
    FindUpdate(c.outbound, k, m);
    D.UpdateMembers(c.outbound, k, m);
    var store := c.store[Key(SentRel, v5, m.msgid) := Pubrel(m.msgid)];
    forall x | x in now ensures RecordOf(store, Key(Sent, v5, x.msgid), x) {
      assert c.outbound[k] in c.outbound;
      assert RecordOf(c.store, Key(Sent, v5, x.msgid), if x == m then c.outbound[k] else x);
    }
    forall i | i in Ids(c.outbound) ensures i in Ids(now) {
      var x :| x in c.outbound && x.msgid == i;
      assert x.msgid == m.msgid || x in now;
      assert m in now;
    }
  }

  lemma StrayStored(v5: bool, out: seq<Message>, store: Store, id: int)
    requires Stored(v5, out, store)
    ensures Stored(v5, out, store[Key(SentRel, v5, id) := Pubrel(id)])
  {
    var store' := store[Key(SentRel, v5, id) := Pubrel(id)];
    forall x | x in out ensures RecordOf(store', Key(Sent, v5, x.msgid), x) {
      assert RecordOf(store, Key(Sent, v5, x.msgid), x);
    }
  }

  /** What an acknowledgement does, told apart by whether it ends the message's stay. */
  lemma Taken(v5: bool, c: Session, p: Packet)
    requires D.IsAck(p) && forall m :: m in c.outbound ==> Form(m)
    ensures var k := IndexOf(c.outbound, p.msgid);
            var e := D.SenderHandles(c, v5, p);
            if k < |c.outbound| && Ends(v5, c.outbound[k], p) then e == Effect(DropOutbound(c, k), [])
            else if p.Pubrec? then
              e == Effect(c.(outbound := if k < |c.outbound| && c.outbound[k].qos == 2
                                         then c.outbound[k := c.outbound[k].(next := PubComp)] else c.outbound,
                             store := c.store[Key(SentRel, v5, p.msgid) := Pubrel(p.msgid)]), [Pubrel(p.msgid)])
            else e == Effect(c, [])
  {
    var k := IndexOf(c.outbound, p.msgid);
    if k < |c.outbound| {
      var m := c.outbound[k];
      assert m in c.outbound && m.msgid == p.msgid;
      assert m.next == PubComp ==> c.outbound[k := m.(next := PubComp)] == c.outbound;
    }
    hide DropOutbound, IndexOf;
  }

  ghost predicate AckLaw(v5: bool, was: Found, p: Packet, has: Found) {
    if was.Some? then (if Ends(v5, was.m, p) then has == None else Still(was.m, has)) else has == None
  }

  /** From the finds before and after to the law: `m` is the message of the acknowledged id, if there is one. */
  lemma AckLaws(v5: bool, out: seq<Message>, now: seq<Message>, p: Packet)
    requires D.IsAck(p) && forall i :: Find(out, i).Some? ==> Find(out, i).m.msgid == i
    requires forall i :: i != p.msgid ==> Find(now, i) == Find(out, i)
    requires AckLaw(v5, Find(out, p.msgid), p, Find(now, p.msgid))
    ensures forall i :: AckLaw(v5, Find(out, i), p, Find(now, i))
  {
    hide Find;
  }

  lemma AckedList(v5: bool, c: Session, p: Packet)
    requires D.IsAck(p) && DistinctIds(c.outbound) && Stored(v5, c.outbound, c.store)
    requires forall m :: m in c.outbound ==> Form(m)
    ensures var t := D.SenderHandles(c, v5, p).s;
            && (forall id :: AckLaw(v5, Find(c.outbound, id), p, Find(t.outbound, id)))
            && DistinctIds(t.outbound) && Stored(v5, t.outbound, t.store)
            && t.inbound == c.inbound && t.msgID == c.msgID
            && forall m :: m in t.outbound ==> Form(m)
  {
    var k := IndexOf(c.outbound, p.msgid);
    var t := D.SenderHandles(c, v5, p).s;
    Taken(v5, c, p);
    FindOthers(c.outbound, p.msgid);
    if k < |c.outbound| { assert c.outbound[k] in c.outbound; }
    hide D.SenderHandles, IndexOf, Find, Stored, DistinctIds, Unpersist;
    if k < |c.outbound| && Ends(v5, c.outbound[k], p) {
      DropLaw(v5, c, k);
      assert forall m :: m in t.outbound ==> Form(m);
    } else if k < |c.outbound| && p.Pubrec? && c.outbound[k].qos == 2 {
      AdvanceLaw(v5, c, k);
      assert forall m :: m in t.outbound ==> Form(m);
    } else {
      StrayStored(v5, c.outbound, c.store, p.msgid);
    }
    assert AckLaw(v5, Find(c.outbound, p.msgid), p, Find(t.outbound, p.msgid));
    hide Form, Ends, Still, DropOutbound, AckLaw;
    AckLaws(v5, c.outbound, t.outbound, p);
  }

  lemma TakesLaw(v5: bool, s: State, p: Packet)
    requires Inv(v5, s) && D.IsAck(p)
    ensures var t := Do(s, v5, Takes(p));
            && Law(v5, s, Takes(p), t.client.outbound) && DistinctIds(t.client.outbound)
            && Stored(v5, t.client.outbound, t.client.store) && forall m :: m in t.client.outbound ==> Form(m)
  {
    hide D.SenderHandles, Find, Stored, Flagged, DistinctIds, Ends, Still, Form;
    AckedList(v5, s.client, p);
  }

  lemma FindOthers(ms: seq<Message>, id: int)
    ensures forall i :: Find(ms, i).Some? ==> Find(ms, i).m.msgid == i && Find(ms, i).m in ms
    ensures var k := IndexOf(ms, id); Find(ms, id) == if k < |ms| then Some(ms[k]) else None
  {
  }

  // ---- restarts

  /** The list with every message as it starts out. */
  function Reset(ms: seq<Message>): (r: seq<Message>)
    ensures |r| == |ms|
    ensures forall i :: 0 <= i < |ms| ==> r[i] == ms[i].(next := if ms[i].qos == 2 then PubRec else Unset)
  {
    seq(|ms|, i requires 0 <= i < |ms| => ms[i].(next := if ms[i].qos == 2 then PubRec else Unset))
  }

  lemma ResetFind(ms: seq<Message>, id: int)
    requires DistinctIds(ms)
    ensures DistinctIds(Reset(ms)) && Ids(Reset(ms)) == Ids(ms)
    ensures if Find(ms, id).Some? then Still(Find(ms, id).m, Find(Reset(ms), id)) else Find(Reset(ms), id) == None
  {
    var r := Reset(ms);
    assert forall j :: 0 <= j < |ms| ==> r[j].msgid == ms[j].msgid;
    assert IndexOf(r, id) == IndexOf(ms, id);
    forall i ensures i in Ids(r) <==> i in Ids(ms) {
      if i in Ids(ms) {
        var m :| m in ms && m.msgid == i;
        var j :| 0 <= j < |ms| && ms[j] == m;
        assert r[j] in r;
      }
      if i in Ids(r) {
        var m :| m in r && m.msgid == i;
        var j :| 0 <= j < |r| && r[j] == m;
        assert ms[j] in ms;
      }
    }
  }

  lemma ResetReadable(v5: bool, out: seq<Message>, store: Store)
    requires DistinctIds(out) && Stored(v5, out, store) && forall m :: m in out ==> Form(m)
    ensures Readable(v5, Reset(out), [], store)
  {
    ResetFind(out, 0);
    forall m | m in Reset(out)
      ensures OutboundForm(m) && PublishOf(store, KeyOf(store, Sent, v5, m.msgid), m, false)
      ensures Key(Sent, v5, m.msgid) in store
    {
      var j :| 0 <= j < |out| && Reset(out)[j] == m;
      assert out[j] in out;
      assert RecordOf(store, Key(Sent, v5, out[j].msgid), out[j]);
    }
  }

  /** What comes back is what was listed, though perhaps in other handshake states. */
  lemma Returned(v5: bool, out: seq<Message>, store: Store, back: seq<Message>, id: int)
    requires DistinctIds(out) && DistinctIds(back)
    requires forall x :: x in back <==> OutBack(v5, Reset(out), store, x)
    ensures if Find(out, id).Some? then Still(Find(out, id).m, Find(back, id)) else Find(back, id) == None
  {
    ResetFind(out, id);
    FindMember(back, id);
    FindOthers(Reset(out), id);
    hide Find, DistinctIds, Reset;
    var f := Find(Reset(out), id);
    if f.Some? {
      assert OutBack(v5, Reset(out), store, Restate(store, v5, f.m));
    }
  }

  lemma RestartLaw(v5: bool, c: Session, keys: seq<Key>)
    requires DistinctIds(c.outbound) && Stored(v5, c.outbound, c.store) && forall m :: m in c.outbound ==> Form(m)
    requires Listing(keys, c.store) && forall k :: k in c.store ==> k in keys
    ensures var t := D.Restart(c, v5, keys);
            && t.inbound == [] && t.msgID == 0 && DistinctIds(t.outbound)
            && t.store == Remaining(c.store, v5, c.store.Keys)
            && (forall x :: x in t.outbound <==> OutBack(v5, Reset(c.outbound), c.store, x))
            && forall id ::
                 var o := Find(t.outbound, id);
                 if Find(c.outbound, id).Some? then Still(Find(c.outbound, id).m, o) else o == None
  {
    ResetReadable(v5, c.outbound, c.store);
    ResetFind(c.outbound, 0);
    RestoreRebuilds(v5, Reset(c.outbound), [], c.store, keys);
    var r := RestorePackets(c.store, v5, keys);
    hide Readable, RestorePackets, Remaining;
    NoMembers(r.inbound);
    forall id
      ensures var o := Find(r.outbound, id);
              if Find(c.outbound, id).Some? then Still(Find(c.outbound, id).m, o) else o == None
    {
      Returned(v5, c.outbound, c.store, r.outbound, id);
    }
  }

  lemma NoMembers(ms: seq<Message>)
    requires forall m :: m !in ms
    ensures ms == []
  {
    HasFirst(ms);
  }

  lemma HasFirst(ms: seq<Message>)
    ensures ms != [] ==> ms[0] in ms
  {
  }

  lemma RestartStored(v5: bool, out: seq<Message>, store: Store, back: seq<Message>)
    requires DistinctIds(out) && DistinctIds(back) && Stored(v5, out, store) && forall m :: m in out ==> Form(m)
    requires forall x :: x in back <==> OutBack(v5, Reset(out), store, x)
    requires forall id ::
      if Find(out, id).Some? then Still(Find(out, id).m, Find(back, id)) else Find(back, id) == None
    ensures Stored(v5, back, Remaining(store, v5, store.Keys)) && forall m :: m in back ==> Form(m)
  {
    var now := Remaining(store, v5, store.Keys);
    forall m | m in back
      ensures RecordOf(now, Key(Sent, v5, m.msgid), m) && Form(m)
    {
      FindMember(back, m.msgid);
      FindMember(out, m.msgid);
      var w := Find(out, m.msgid).m;
      assert RecordOf(store, Key(Sent, v5, w.msgid), w);
      ResetFind(out, m.msgid);
      assert OutBack(v5, Reset(out), store, m);
    }
    forall i | i in Ids(out) ensures i in Ids(back) {
      FindMember(out, i);
      FindMember(back, i);
    }
  }

  // ---- retries

  lemma {:induction false} ResendsAre(ms: seq<Message>, due: set<nat>, k: nat)
    requires k <= |ms| && forall m :: m in ms ==> Form(m)
    ensures forall p :: p in Resends(ms, due, k) ==> D.Resendable(ms, p)
    decreases |ms| - k
  {
    if k < |ms| {
      ResendsAre(ms, due, k + 1);
      assert ms[k] in ms && |Resend(ms[k])| == 1;
      assert Resend(ms[k]) == [Resend(ms[k])[0]];
    }
  }

  lemma OneStored(v5: bool, out: seq<Message>, store: Store, p: Packet)
    requires DistinctIds(out) && Stored(v5, out, store) && D.Resendable(out, p)
    ensures Stored(v5, out, Persist(store, v5, p))
  {
    var m :| m in out && Resend(m) == [p];
    assert m.msgid in Ids(out);
    var store' := Persist(store, v5, p);
    forall x | x in out ensures RecordOf(store', Key(Sent, v5, x.msgid), x) {
      assert RecordOf(store, Key(Sent, v5, x.msgid), x);
      if x.msgid == m.msgid { SameId(out, x, m); }
    }
  }

  lemma {:induction false} ManyStored(v5: bool, out: seq<Message>, store: Store, ps: seq<Packet>)
    requires DistinctIds(out) && Stored(v5, out, store) && forall p :: p in ps ==> D.Resendable(out, p)
    ensures Stored(v5, out, PersistAll(store, v5, ps))
    decreases |ps|
  {
    if ps != [] {
      hide Stored, Persist, D.Resendable;
      assert ps[0] in ps && forall p :: p in ps[1..] ==> p in ps;
      OneStored(v5, out, store, ps[0]);
      ManyStored(v5, out, Persist(store, v5, ps[0]), ps[1..]);
    }
  }

  // ---- what is written

  /** No PUBLISH, or one of a message already written once, with the flag. */
  ghost predicate Again(p: Packet, published: seq<Entry>) {
    p.Publish? ==> p.dup && D.Genuine(published, Entry(p.content, p.qos, p.retain))
  }

  lemma FlagOne(written: seq<Packet>, published: seq<Entry>, p: Packet)
    requires Flagged(written, published) && Again(p, published)
    ensures Flagged(written + [p], published)
  {
    Earlier(written, p);
    hide CarriedBefore;
    var all := written + [p];
    forall k | 0 <= k < |all| && all[k].Publish?
      ensures D.Genuine(published, Entry(all[k].content, all[k].qos, all[k].retain))
      ensures all[k].dup <==> CarriedBefore(all, k, all[k].content.serial)
    {
      assert k < |written| ==> all[k] == written[k];
    }
    forall n: nat | n < |published| ensures CarriedBefore(all, |all|, n) {
      assert CarriedBefore(written, |written|, n);
      assert CarriedBefore(all, |written| + 1, n);
    }
  }

  lemma Earlier(written: seq<Packet>, p: Packet)
    ensures forall k, n :: k <= |written| ==> (CarriedBefore(written + [p], k, n) <==> CarriedBefore(written, k, n))
    ensures forall n :: CarriedBefore(written, |written|, n) ==> CarriedBefore(written + [p], |written| + 1, n)
    ensures forall n :: Carries(p, n) ==> CarriedBefore(written + [p], |written| + 1, n)
  {
    var all := written + [p];
    assert forall j :: 0 <= j < |written| ==> all[j] == written[j];
    assert all[|written|] == p;
    forall k: int, n: nat | k <= |written| ensures CarriedBefore(all, k, n) <==> CarriedBefore(written, k, n) {
      if j :| 0 <= j < k && j < |all| && Carries(all[j], n) {
        assert Carries(written[j], n);
      }
      if j :| 0 <= j < k && j < |written| && Carries(written[j], n) {
        assert Carries(all[j], n);
      }
    }
    forall n: nat | CarriedBefore(written, |written|, n) ensures CarriedBefore(all, |written| + 1, n) {
      var j :| 0 <= j < |written| && Carries(written[j], n);
      assert Carries(all[j], n);
    }
    forall n: nat | Carries(p, n) ensures CarriedBefore(all, |written| + 1, n) {
      assert Carries(all[|written|], n);
    }
  }

  lemma {:induction false} FlagMany(written: seq<Packet>, published: seq<Entry>, ps: seq<Packet>)
    requires Flagged(written, published) && forall p :: p in ps ==> Again(p, published)
    ensures Flagged(written + ps, published)
    decreases |ps|
  {
    if ps == [] {
      assert written + ps == written;
    } else {
      assert ps[0] in ps && forall p :: p in ps[1..] ==> p in ps;
      FlagOne(written, published, ps[0]);
      hide Flagged, Again;
      FlagMany(written + [ps[0]], published, ps[1..]);
      assert written + [ps[0]] + ps[1..] == written + ps;
    }
  }

  /** The first PUBLISH of a new message. */
  lemma FlagNew(written: seq<Packet>, published: seq<Entry>, e: Entry, p: Packet)
    requires Flagged(written, published) && p.Publish? && !p.dup && e == Entry(p.content, p.qos, p.retain)
    requires p.content.Content? && p.content.serial == |published|
    ensures Flagged(written + [p], published + [e])
  {
    GenuineLater(published, e);
    Earlier(written, p);
    assert !CarriedBefore(written, |written|, |published|);
    assert Carries(p, |published|);
    hide CarriedBefore;
    var all := written + [p];
    forall k | 0 <= k < |all| && all[k].Publish?
      ensures D.Genuine(published + [e], Entry(all[k].content, all[k].qos, all[k].retain))
      ensures all[k].dup <==> CarriedBefore(all, k, all[k].content.serial)
    {
      assert k < |written| ==> all[k] == written[k];
    }
    forall n: nat | n < |published| + 1 ensures CarriedBefore(all, |all|, n) {
      assert n < |published| ==> CarriedBefore(written, |written|, n);
      assert CarriedBefore(all, |written| + 1, n);
    }
  }

  // ---- every step keeps the invariant

  lemma RetryAgain(v5: bool, s: State, due: set<nat>)
    requires Inv(v5, s)
    ensures var t := Do(s, v5, RetryPass(due));
            Stored(v5, t.client.outbound, t.client.store) && Flagged(t.written, t.published)
    ensures forall p :: p in Resends(s.client.outbound, due, 0) ==> D.Resendable(s.client.outbound, p)
  {
    var out, ps := s.client.outbound, Resends(s.client.outbound, due, 0);
    ResendsAre(out, due, 0);
    forall p | p in ps ensures Again(p, s.published) {
      var m :| m in out && Resend(m) == [p];
      assert D.Genuine(s.published, Entry(m.body, m.qos, m.retain));
    }
    hide Resends, Again, Flagged, Stored;
    ManyStored(v5, out, s.client.store, ps);
    FlagMany(s.written, s.published, ps);
  }

  /** The law of the list: a message leaves it exactly at the acknowledgement that ends its stay; no restart, retry or
      other acknowledgement takes anything but its handshake state from it, and nothing enters but what is published. */
  lemma StepLaw(v5: bool, s: State, step: Step)
    requires Inv(v5, s) && Enabled(s, step)
    ensures var t := Do(s, v5, step);
            && Law(v5, s, step, t.client.outbound) && DistinctIds(t.client.outbound)
            && Stored(v5, t.client.outbound, t.client.store) && forall m :: m in t.client.outbound ==> Form(m)
  {
    match step
    case PublishCall(_, _, _, _) => PublishLaw(v5, s, step);
    case Takes(p) => TakesLaw(v5, s, p);
    case RetryPass(due) => RetryAgain(v5, s, due);
    case Restarts(keys) =>
      var c := s.client;
      RestartLaw(v5, c, keys);
      hide Remaining, D.Restart, Find;
      RestartStored(v5, c.outbound, c.store, D.Restart(c, v5, keys).outbound);
  }

  lemma StepFlagged(v5: bool, s: State, step: Step)
    requires Inv(v5, s) && Enabled(s, step)
    ensures Flagged(Do(s, v5, step).written, Do(s, v5, step).published)
  {
    match step
    case PublishCall(topic, payload, qos, retain) =>
      var c := Content(|s.published|, topic, payload);
      FlagNew(s.written, s.published, Entry(c, qos, retain),
              Publish(false, qos, retain, if qos == 0 then 0 else NewId(s.client), c));
    case Takes(p) =>
      Taken(v5, s.client, p);
      var e := D.SenderHandles(s.client, v5, p);
      hide D.SenderHandles;
      FlagMany(s.written, s.published, e.wire);
    case RetryPass(due) => RetryAgain(v5, s, due);
    case Restarts(keys) =>
  }

  lemma StepKeepsInv(v5: bool, s: State, step: Step)
    requires Inv(v5, s) && Enabled(s, step)
    ensures Inv(v5, Do(s, v5, step))
  {
    StepLaw(v5, s, step);
    StepFlagged(v5, s, step);
    hide Law, Stored, Flagged, Form, Listed;
    var t := Do(s, v5, step);
    ListedAgain(v5, s, step, t.client.outbound, t.published);
    assert t.client.inbound == [] && 0 <= t.client.msgID <= MAX_MSG_ID by {
      AssignSpec(s.client.msgID, Ids(s.client.outbound));
      if step.Takes? { Taken(v5, s.client, step.p); }
      if step.Restarts? { RestartLaw(v5, s.client, step.keys); }
    }
  }

  lemma {:induction false} RunInv(v5: bool, states: seq<State>, steps: seq<Step>, k: nat)
    requires Run(v5, states, steps) && k <= |steps|
    ensures Inv(v5, states[k])
  {
    hide Inv, Do, Enabled;
    if k == 0 {
      StartInv(v5);
    } else {
      RunInv(v5, states, steps, k - 1);
      StepKeepsInv(v5, states[k - 1], steps[k - 1]);
    }
  }

  lemma StartInv(v5: bool)
    ensures Inv(v5, START)
  {
  }

  // ---- over every run

  /** A message leaves the list exactly when the acknowledgement for its id comes that ends its exchange: PUBACK for
      QoS 1; for QoS 2 PUBCOMP when that is awaited, and in version 5 a PUBREC with an error when that is awaited.
      Otherwise it stays, through every retry and restart, with its id, QoS and content. */
  lemma LeavesExactly(v5: bool, states: seq<State>, steps: seq<Step>, k: nat, m: Message)
    requires Run(v5, states, steps) && k < |steps| && m in states[k].client.outbound
    ensures var out, step, id := states[k + 1].client.outbound, steps[k], m.msgid;
            && ((forall x :: x in out ==> x.body != m.body) <==>
                  step.Takes? &&
                  if m.qos == 1 then step.p == Puback(id)
                  else if m.next == PubComp then step.p == Pubcomp(id)
                  else v5 && exists rc :: rc >= 128 && step.p == Pubrec(id, rc))
            && forall x :: x in out && x.body == m.body ==> x == m.(next := x.next)
  {
    var s, step, now := states[k], steps[k], states[k + 1].client.outbound;
    RunInv(v5, states, steps, k);
    RunInv(v5, states, steps, k + 1);
    StepLaw(v5, s, step);
    FindMember(s.client.outbound, m.msgid);
    FindMember(now, m.msgid);
    assert Find(s.client.outbound, m.msgid) == Some(m) && Form(m);
    var ends := step.Takes? && Ends(v5, m, step.p);
    assert if ends then Find(now, m.msgid) == None else Still(m, Find(now, m.msgid));
    if step.Takes? && step.p.Pubrec? { assert step.p == Pubrec(step.p.msgid, step.p.rc); }
    forall x | x in now && x.body == m.body ensures x.msgid == m.msgid {
      SameBody(v5, s, step, now, x, m);
    }
    if !ends { assert Find(now, m.msgid).m in now; }
  }

  /** Contents tell messages apart, before and after a step. */
  lemma SameBody(v5: bool, s: State, step: Step, now: seq<Message>, x: Message, m: Message)
    requires Inv(v5, s) && Enabled(s, step) && Law(v5, s, step, now) && DistinctIds(now)
    requires x in now && m in s.client.outbound && x.body == m.body
    ensures x.msgid == m.msgid
  {
    var out := s.client.outbound;
    FindMember(now, x.msgid);
    FindMember(out, x.msgid);
    assert D.Genuine(s.published, Entry(m.body, m.qos, m.retain));
    if Find(out, x.msgid).Some? {
      assert Find(out, x.msgid).m in out && Find(out, x.msgid).m.body == m.body;
    }
  }

  /** The handshake state of a message that stays: only its own PUBREC advances it, and a restart goes by the PUBREL
      record. */
  lemma NextExactly(v5: bool, states: seq<State>, steps: seq<Step>, k: nat, m: Message, x: Message)
    requires Run(v5, states, steps) && k < |steps|
    requires m in states[k].client.outbound && x in states[k + 1].client.outbound && x.body == m.body
    ensures x.next == match steps[k]
                      case Takes(Pubrec(id, _)) => if id == m.msgid && m.qos == 2 then PubComp else m.next
                      case Restarts(_) =>
                        if Key(SentRel, v5, m.msgid) in states[k].client.store then PubComp
                        else if m.qos == 2 then PubRec else Unset
                      case _ => m.next
  {
    var s, c := states[k], states[k].client;
    RunInv(v5, states, steps, k);
    LeavesExactly(v5, states, steps, k, m);
    if x in c.outbound && !steps[k].Restarts? { assert x == m; }
    match steps[k]
    case PublishCall(_, _, _, _) =>
      assert D.Genuine(s.published, Entry(m.body, m.qos, m.retain));
    case Takes(p) => TakenNext(v5, s, p, m, x);
    case RetryPass(_) =>
    case Restarts(keys) =>
      RestartLaw(v5, c, keys);
      ResetFind(c.outbound, m.msgid);
      FindMember(c.outbound, m.msgid);
      assert OutBack(v5, Reset(c.outbound), c.store, x);
  }

  lemma TakenNext(v5: bool, s: State, p: Packet, m: Message, x: Message)
    requires Inv(v5, s) && D.IsAck(p) && m in s.client.outbound && x in Do(s, v5, Takes(p)).client.outbound
    requires x == m.(next := x.next) && (x in s.client.outbound ==> x == m)
    ensures x.next == if p.Pubrec? && p.msgid == m.msgid && m.qos == 2 then PubComp else m.next
  {
    var c, i := s.client, IndexOf(s.client.outbound, p.msgid);
    Taken(v5, c, p);
    FindMember(c.outbound, p.msgid);
    FindOthers(c.outbound, p.msgid);
    if i < |c.outbound| {
      D.WithoutMembers(c.outbound, i);
      D.UpdateMembers(c.outbound, i, c.outbound[i].(next := PubComp));
    }
  }

  /** What is written when an acknowledgement is taken: PUBREL for every PUBREC, expected or not, except one that ends
      the exchange. */
  lemma AnswersExactly(v5: bool, states: seq<State>, steps: seq<Step>, k: nat)
    requires Run(v5, states, steps) && k < |steps| && steps[k].Takes?
    ensures var p, out := steps[k].p, states[k].client.outbound;
            var refused := v5 && p.Pubrec? && p.rc >= 128 &&
                           exists m :: m in out && m.msgid == p.msgid && m.qos == 2 && m.next == PubRec;
            states[k + 1].written == states[k].written + (if p.Pubrec? && !refused then [Pubrel(p.msgid)] else [])
  {
    var s, p, out := states[k], steps[k].p, states[k].client.outbound;
    RunInv(v5, states, steps, k);
    Taken(v5, s.client, p);
    FindMember(out, p.msgid);
    FindOthers(out, p.msgid);
    var i := IndexOf(out, p.msgid);
    if i < |out| { assert out[i] in out; }
    hide D.SenderHandles, Inv, Find;
    forall m | m in out && m.msgid == p.msgid ensures i < |out| && m == out[i] {
      assert Find(out, p.msgid) == Some(m);
    }
  }

  /** Nothing of the message with this serial number is listed or stored. */
  ghost predicate Gone(s: State, n: nat) {
    && (forall m :: m in s.client.outbound ==> m.body.Content? && m.body.serial != n)
    && forall k :: k in s.client.store ==> !Carries(s.client.store[k], n)
  }

  lemma GoneFromStore(v5: bool, s: State, n: nat)
    requires Inv(v5, s) && forall m :: m in s.client.outbound ==> m.body.Content? && m.body.serial != n
    ensures Gone(s, n)
  {
    var out, store := s.client.outbound, s.client.store;
    forall k | k in store ensures !Carries(store[k], n) {
      if k.kind == Sent {
        var m :| m in out && m.msgid == k.id;
        assert RecordOf(store, Key(Sent, v5, m.msgid), m);
        assert k == Key(Sent, v5, m.msgid);
      }
    }
  }

  lemma StillGone(v5: bool, s: State, step: Step, n: nat)
    requires Inv(v5, s) && Enabled(s, step) && Gone(s, n) && n < |s.published|
    ensures Gone(Do(s, v5, step), n) && n < |Do(s, v5, step).published|
  {
    StepLaw(v5, s, step);
    StepKeepsInv(v5, s, step);
    var t, out := Do(s, v5, step), s.client.outbound;
    hide Do, Inv, Stored, Form, Find, DistinctIds;
    forall m | m in t.client.outbound ensures m.body.Content? && m.body.serial != n {
      FindMember(t.client.outbound, m.msgid);
      FindOthers(out, m.msgid);
    }
    assert n < |t.published| by { PublishedGrows(v5, s, step); }
    GoneFromStore(v5, t, n);
  }

  lemma PublishedGrows(v5: bool, s: State, step: Step)
    requires Enabled(s, step)
    ensures s.published <= Do(s, v5, step).published
  {
  }

  lemma NotResent(out: seq<Message>, due: set<nat>, n: nat)
    requires forall m :: m in out ==> Form(m) && m.body.Content? && m.body.serial != n
    ensures forall p :: p in Resends(out, due, 0) ==> !Carries(p, n)
  {
    ResendsAre(out, due, 0);
    hide Form, Resends;
    forall p | p in Resends(out, due, 0) ensures !Carries(p, n) {
      var m :| m in out && Resend(m) == [p];
    }
  }

  lemma NotWritten(v5: bool, s: State, step: Step, n: nat)
    requires Inv(v5, s) && Enabled(s, step) && Gone(s, n) && n < |s.published|
    ensures var t := Do(s, v5, step);
            && s.written <= t.written
            && forall k :: |s.written| <= k < |t.written| ==> !Carries(t.written[k], n)
  {
    match step
    case PublishCall(_, _, _, _) => assert |Do(s, v5, step).written| == |s.written| + 1;
    case Takes(p) =>
      Taken(v5, s.client, p);
      hide Inv, Gone, D.SenderHandles;
    case RetryPass(due) =>
      NotResent(s.client.outbound, due, n);
      hide Inv, Gone, Resends, Carries;
    case Restarts(_) =>
  }

  lemma NoneBetween(a: seq<Packet>, b: seq<Packet>, c: seq<Packet>, n: nat)
    requires a <= b <= c
    requires forall k :: |a| <= k < |b| ==> !Carries(b[k], n)
    requires forall k :: |b| <= k < |c| ==> !Carries(c[k], n)
    ensures a <= c && forall k :: |a| <= k < |c| ==> !Carries(c[k], n)
  {
    hide Carries;
    forall k | |a| <= k < |c| ensures !Carries(c[k], n) {
      assert k < |b| ==> c[k] == b[k];
    }
  }

  /** What has left the list is gone for good: in no later state of the run, whatever the peer sends and whenever the
      client restarts, is it listed or stored, and no PUBLISH of it is written again. */
  lemma {:induction false} GoneForGood(v5: bool, states: seq<State>, steps: seq<Step>, i: nat, j: nat, n: nat)
    requires Run(v5, states, steps) && i <= j <= |steps| && n < |states[i].published|
    requires forall m :: m in states[i].client.outbound ==> m.body.Content? && m.body.serial != n
    ensures Gone(states[j], n) && n < |states[j].published| && states[i].written <= states[j].written
    ensures forall k :: |states[i].written| <= k < |states[j].written| ==> !Carries(states[j].written[k], n)
  {
    if i == j {
      RunInv(v5, states, steps, i);
      GoneFromStore(v5, states[i], n);
    } else {
      GoneForGood(v5, states, steps, i, j - 1, n);
      RunInv(v5, states, steps, j - 1);
      hide Inv, Do, Gone, Carries;
      StillGone(v5, states[j - 1], steps[j - 1], n);
      NotWritten(v5, states[j - 1], steps[j - 1], n);
      NoneBetween(states[i].written, states[j - 1].written, states[j].written, n);
    }
  }

  /** Version 5: the awaited PUBREC of a message comes with an error code. Nothing is written, the id is free, both
      records are gone, and from then on nothing of the message is ever listed, stored or written again. */
  lemma RefusedForGood(states: seq<State>, steps: seq<Step>, i: nat, m: Message, rc: int)
    requires Run(true, states, steps) && i < |steps| && steps[i] == Takes(Pubrec(m.msgid, rc)) && rc >= 128
    requires m in states[i].client.outbound && m.qos == 2 && m.next == PubRec
    ensures var t := states[i + 1];
            && t.written == states[i].written && m.msgid !in Ids(t.client.outbound)
            && forall k :: k in t.client.store ==> k.id != m.msgid
    ensures m.body.Content?
    ensures forall j :: i < j <= |steps| ==>
              && Gone(states[j], m.body.serial)
              && forall k :: |states[i].written| <= k < |states[j].written| ==>
                   !Carries(states[j].written[k], m.body.serial)
  {
    var s, t := states[i], states[i + 1];
    RunInv(true, states, steps, i);
    RunInv(true, states, steps, i + 1);
    assert D.Genuine(s.published, Entry(m.body, m.qos, m.retain));
    var n := m.body.serial;
    AnswersExactly(true, states, steps, i);
    LeavesExactly(true, states, steps, i, m);
    RefusedStep(s, m, rc);
    forall x | x in t.client.outbound ensures x.body.Content? && x.body.serial != n {
      assert D.Genuine(t.published, Entry(x.body, x.qos, x.retain)) && t.published == s.published;
      assert x.body != m.body;
    }
    forall j | i < j <= |steps|
      ensures Gone(states[j], n)
      ensures forall k :: |s.written| <= k < |states[j].written| ==> !Carries(states[j].written[k], n)
    {
      GoneForGood(true, states, steps, i + 1, j, n);
    }
  }

  lemma RefusedStep(s: State, m: Message, rc: int)
    requires Inv(true, s) && rc >= 128 && m in s.client.outbound && m.qos == 2 && m.next == PubRec
    ensures var t := Do(s, true, Takes(Pubrec(m.msgid, rc)));
            m.msgid !in Ids(t.client.outbound) && forall k :: k in t.client.store ==> k.id != m.msgid
  {
    var c := s.client;
    Taken(true, c, Pubrec(m.msgid, rc));
    FindMember(c.outbound, m.msgid);
    FindOthers(c.outbound, m.msgid);
    assert Find(c.outbound, m.msgid) == Some(m);
    var k := IndexOf(c.outbound, m.msgid);
    D.WithoutMembers(c.outbound, k);
  }

  /** Section 3.3.1.1 of MQTT 5.0: over every run, however often a message is written, the first PUBLISH of it and no
      other is without the DUP flag, and all of them are the message as it was published. */
  lemma FirstWithoutDup(v5: bool, states: seq<State>, steps: seq<Step>, k: nat, i: nat)
    requires Run(v5, states, steps) && k <= |steps| && i < |states[k].written| && states[k].written[i].Publish?
    ensures var s, p := states[k], states[k].written[i];
            && p.content.Content? && p.content.serial < |s.published|
            && s.published[p.content.serial] == Entry(p.content, p.qos, p.retain)
            && (p.dup <==> exists j :: 0 <= j < i && s.written[j].Publish? && s.written[j].content == p.content)
  {
    var s, p := states[k], states[k].written[i];
    RunInv(v5, states, steps, k);
    assert D.Genuine(s.published, Entry(p.content, p.qos, p.retain));
    forall j | 0 <= j < i && s.written[j].Publish?
      ensures s.written[j].content == p.content <==> Carries(s.written[j], p.content.serial)
    {
      assert D.Genuine(s.published, Entry(s.written[j].content, s.written[j].qos, s.written[j].retain));
    }
  }

  /** And every message is written when it is published, at the latest. */
  lemma EachWritten(v5: bool, states: seq<State>, steps: seq<Step>, k: nat, n: nat)
    requires Run(v5, states, steps) && k <= |steps| && n < |states[k].published|
    ensures var s := states[k];
            exists i :: 0 <= i < |s.written| && s.written[i].Publish? && s.written[i].content == s.published[n].content
  {
    var s := states[k];
    RunInv(v5, states, steps, k);
    assert CarriedBefore(s.written, |s.written|, n);
    var i :| 0 <= i < |s.written| && Carries(s.written[i], n);
    assert D.Genuine(s.published, Entry(s.written[i].content, s.written[i].qos, s.written[i].retain));
  }
}
