/** Ordered delivery (section 4.6 of MQTT 5.0) over the two endpoints of Delivery.dfy, in version 5, which delivers a
    QoS 2 message when its first PUBLISH comes: what keeps the messages in order, and over which reconnections. */
module Ordering {
  import opened MsgId
  import opened Session
  import opened Recovery
  import opened Delivery

  function Num(c: Content): int {
    if c.Content? then c.serial else -1
  }

  /** m is on record and has not been delivered: version 5 delivers at the first PUBLISH. */
  ghost predicate Waits(out: seq<Message>, inb: seq<Message>, m: Message) {
    Find(out, m.msgid) == Some(m) && m.qos == 2 && m.next == PubRec && Find(inb, m.msgid) == None
  }

  ghost predicate Rising(out: seq<Message>) {
    forall a, b :: 0 <= a < b < |out| ==> Num(out[a].body) < Num(out[b].body)
  }

  /** The QoS 2 messages handed over are in the order of their publish calls. */
  ghost predicate LogRises(log: seq<Entry>) {
    forall a, b :: 0 <= a < b < |log| && log[a].qos == 2 && log[b].qos == 2 ==>
      Num(log[a].content) < Num(log[b].content)
  }

  /** Whatever waits was published after everything delivered. */
  ghost predicate LogBefore(out: seq<Message>, inb: seq<Message>, log: seq<Entry>) {
    forall e, m :: e in log && e.qos == 2 && Waits(out, inb, m) ==> Num(e.content) < Num(m.body)
  }

  /** Every waiting message has a PUBLISH under way, and none without all earlier ones in front of it. */
  ghost predicate Queued(out: seq<Message>, inb: seq<Message>, ch: seq<Packet>) {
    && (forall m :: Waits(out, inb, m) ==> Has(ch, Pub, m.msgid))
    && (forall m, n, k ::
          (Waits(out, inb, m) && Waits(out, inb, n) && Num(m.body) < Num(n.body) && 0 <= k < |ch| &&
           Is(ch[k], Pub, n.msgid))
          ==> Has(ch[..k], Pub, m.msgid))
  }

  ghost predicate Logged(s: System) {
    LogRises(s.receiver.delivered) && LogBefore(s.sender.outbound, s.receiver.inbound, s.receiver.delivered)
  }

  ghost predicate Flowing(s: System) {
    Queued(s.sender.outbound, s.receiver.inbound, s.toReceiver)
  }

  ghost predicate Ordered(s: System) {
    Logged(s) && Flowing(s)
  }

  // ---- the channel

  lemma HasLonger(a: seq<Packet>, b: seq<Packet>, id: int)
    requires Has(a, Pub, id)
    ensures Has(a + b, Pub, id)
  {
    var k :| 0 <= k < |a| && Is(a[k], Pub, id);
    assert Is((a + b)[k], Pub, id);
  }

  /** Packets behind the others leave the order alone, if what starts to wait is newer than all that waits. */
  lemma QueuedAppend(out: seq<Message>, inb: seq<Message>, out': seq<Message>, inb': seq<Message>,
                     ch: seq<Packet>, more: seq<Packet>)
    requires Queued(out, inb, ch)
    requires forall m :: Waits(out', inb', m) && !Waits(out, inb, m) ==>
      Has(more, Pub, m.msgid) && !Has(ch, Pub, m.msgid) &&
      forall n :: Waits(out', inb', n) ==> Num(n.body) <= Num(m.body)
    ensures Queued(out', inb', ch + more)
  {
    hide Waits;
    var l := ch + more;
    forall m | Waits(out', inb', m) ensures Has(l, Pub, m.msgid) {
      if Waits(out, inb, m) {
        HasLonger(ch, more, m.msgid);
      } else {
        var k :| 0 <= k < |more| && Is(more[k], Pub, m.msgid);
        assert Is(l[|ch| + k], Pub, m.msgid);
      }
    }
    forall m, n, k | Waits(out', inb', m) && Waits(out', inb', n) && Num(m.body) < Num(n.body) &&
      0 <= k < |l| && Is(l[k], Pub, n.msgid) ensures Has(l[..k], Pub, m.msgid)
    {
      assert Waits(out, inb, m);
      if k < |ch| {
        assert l[k] == ch[k] && l[..k] == ch[..k];
        assert Has(ch, Pub, n.msgid);
      } else {
        assert l[..k] == ch + l[|ch|..k];
        HasLonger(ch, l[|ch|..k], m.msgid);
      }
    }
  }

  /** The head leaves; the message it carried, if it was waiting, was the oldest and waits no longer. */
  lemma QueuedPop(out: seq<Message>, inb: seq<Message>, inb': seq<Message>, ch: seq<Packet>)
    requires Queued(out, inb, ch) && ch != []
    requires forall m :: Waits(out, inb', m) ==> Waits(out, inb, m) && !Is(ch[0], Pub, m.msgid)
    ensures Queued(out, inb', ch[1..])
  {
    hide Waits;
    var l := ch[1..];
    forall m | Waits(out, inb', m) ensures Has(l, Pub, m.msgid) {
      Pop(ch, m.msgid);
    }
    forall m, n, k | Waits(out, inb', m) && Waits(out, inb', n) && Num(m.body) < Num(n.body) &&
      0 <= k < |l| && Is(l[k], Pub, n.msgid) ensures Has(l[..k], Pub, m.msgid)
    {
      assert l[k] == ch[k + 1] && l[..k] == ch[..k + 1][1..];
      assert ch[..k + 1][0] == ch[0];
      Pop(ch[..k + 1], m.msgid);
    }
  }

  lemma HeadIsOldest(out: seq<Message>, inb: seq<Message>, ch: seq<Packet>, m: Message, n: Message)
    requires Queued(out, inb, ch) && ch != [] && Is(ch[0], Pub, n.msgid)
    requires Waits(out, inb, m) && Waits(out, inb, n)
    ensures Num(n.body) <= Num(m.body)
  {
  }

  // ---- publish calls, acknowledgements and retries

  lemma PublishInOrder(s: System, step: Step)
    requires Inv(true, s) && Ordered(s) && Enabled(s, step) && step.PublishCall?
    ensures Ordered(Do(s, true, step))
  {
    var out, inb, m := s.sender.outbound, s.receiver.inbound, Published(s, step);
    var t := Do(s, true, step);
    var out' := t.sender.outbound;
    Publishes(true, s, step);
    OlderThan(true, s);
    PublishWaits(s, step, out');
    WaitsIsListed(out', inb);
    hide Inv, Do, Enabled, Waits, PublishSent, LogRises;
    QueuedAppend(out, inb, out', inb, s.toReceiver, [PublishSent(s, step)]);
  }

  lemma WaitsIsListed(out: seq<Message>, inb: seq<Message>)
    ensures forall m :: Waits(out, inb, m) ==> m in out
  {
  }

  lemma OlderThan(v5: bool, s: System)
    requires Inv(v5, s)
    ensures forall m :: m in s.sender.outbound ==> Num(m.body) < |s.published|
    ensures forall e :: e in s.receiver.delivered ==> Num(e.content) < |s.published|
    ensures forall m :: Waits(s.sender.outbound, s.receiver.inbound, m) ==> m in s.sender.outbound
  {
    WaitsIsListed(s.sender.outbound, s.receiver.inbound);
    forall m | m in s.sender.outbound ensures Num(m.body) < |s.published| {
      assert Genuine(s.published, Entry(m.body, m.qos, m.retain));
    }
  }

  lemma PublishWaits(s: System, step: Step, out': seq<Message>)
    requires Inv(true, s) && Enabled(s, step) && step.PublishCall?
    requires out' == if step.qos == 0 then s.sender.outbound else s.sender.outbound + [Published(s, step)]
    ensures forall x :: Waits(out', s.receiver.inbound, x) ==>
      Waits(s.sender.outbound, s.receiver.inbound, x) || x == Published(s, step)
    ensures Waits(out', s.receiver.inbound, Published(s, step)) ==>
      Has([PublishSent(s, step)], Pub, Published(s, step).msgid) && !Has(s.toReceiver, Pub, Published(s, step).msgid)
  {
    var m := Published(s, step);
    if step.qos != 0 {
      PublishedFind(s, step);
      assert IdInv(true, None, Find(s.receiver.inbound, m.msgid), s.toReceiver, s.toSender, m.msgid);
      hide Find, Has;
      if step.qos == 2 {
        assert Has([PublishSent(s, step)], Pub, m.msgid) by {
          assert Is([PublishSent(s, step)][0], Pub, m.msgid);
        }
      }
    }
  }

  lemma SenderInOrder(s: System)
    requires Inv(true, s) && Ordered(s) && Enabled(s, SenderReads)
    ensures Ordered(Do(s, true, SenderReads))
  {
    var t := Do(s, true, SenderReads);
    var inb := s.receiver.inbound;
    SenderLists(true, s);
    AckedWaits(s);
    var more := SenderHandles(s.sender, true, s.toSender[0]).wire;
    hide Inv, AckedOut, Waits, SenderHandles;
    assert t.toReceiver == s.toReceiver + more && t.receiver == s.receiver;
    QueuedAppend(s.sender.outbound, inb, t.sender.outbound, inb, s.toReceiver, more);
  }

  lemma AckedWaits(s: System)
    requires Inv(true, s) && Enabled(s, SenderReads)
    ensures forall m :: Waits(AckedOut(s), s.receiver.inbound, m) ==> Waits(s.sender.outbound, s.receiver.inbound, m)
  {
    forall m | Waits(AckedOut(s), s.receiver.inbound, m) ensures Waits(s.sender.outbound, s.receiver.inbound, m) {
      AckedFind(s, m.msgid);
    }
  }

  lemma RetryInOrder(s: System, due: set<nat>)
    requires Inv(true, s) && Ordered(s)
    ensures Ordered(Do(s, true, RetryPass(due)))
  {
    Retries(true, s, due);
    hide Inv, Waits, Do, Resends;
    var out, inb := s.sender.outbound, s.receiver.inbound;
    QueuedAppend(out, inb, out, inb, s.toReceiver, Resends(out, due, 0));
  }

  // ---- the receiver

  lemma ReceivedFind(v5: bool, r: Session, p: Packet, i: int)
    requires InboundInv(r.inbound) && (p.Publish? || p.Pubrel?)
    ensures Find(ReceiverHandles(r, v5, p).s.inbound, i).Some? ==
      if i == p.msgid && p.Publish? && p.qos == 2 then true
      else if i == p.msgid && p.Pubrel? then false else Find(r.inbound, i).Some?
  {
    var inb := r.inbound;
    var k := IndexOf(inb, p.msgid);
    if p.Publish? && p.qos == 2 {
      var m := Message(p.msgid, 2, p.retain, PubRel, if v5 && k == |inb| then NoContent else p.content);
      var inb' := if k < |inb| then inb[k := m] else inb + [m];
      assert ReceiverHandles(r, v5, p).s.inbound == inb';
      if k < |inb| { FindUpdate(inb, k, m); } else { FindMember(inb, p.msgid); FindAppend(inb, m); }
      assert Find(inb', i) == if i == m.msgid then Some(m) else Find(inb, i);
    } else if p.Pubrel? && k < |inb| {
      FindRemove(inb, k);
    }
  }

  lemma ReceivedLog(r: Session, p: Packet)
    requires p.Publish? || p.Pubrel?
    ensures ReceiverHandles(r, true, p).s.delivered ==
      if p.Publish? && (p.qos == 0 || p.qos == 1 || (p.qos == 2 && Find(r.inbound, p.msgid).None?))
      then r.delivered + [Entry(p.content, p.qos, p.retain)] else r.delivered
  {
  }

  /** A PUBLISH or PUBREL that is read for id i: either m is not the message with that id, or it was waiting
      and its PUBLISH has come. */
  lemma ReadWaits(s: System, inb': seq<Message>, m: Message)
    requires Inv(true, s) && Enabled(s, ReceiverReads) && inb' == Do(s, true, ReceiverReads).receiver.inbound
    requires Waits(s.sender.outbound, inb', m)
    ensures Waits(s.sender.outbound, s.receiver.inbound, m) && !Is(s.toReceiver[0], Pub, m.msgid)
  {
    var p := s.toReceiver[0];
    ReceivedFind(true, s.receiver, p, m.msgid);
    var o, r := Find(s.sender.outbound, m.msgid), Find(s.receiver.inbound, m.msgid);
    assert IdInv(true, o, r, s.toReceiver, s.toSender, m.msgid);
    hide Find;
    if p.Pubrel? && p.msgid == m.msgid { assert Is(s.toReceiver[0], Rel, m.msgid); }
  }

  /** A first QoS 2 PUBLISH is for a waiting message. */
  lemma FirstWaits(s: System, o: Message)
    requires Inv(true, s) && Enabled(s, ReceiverReads)
    requires var p := s.toReceiver[0]; Is(p, Pub, p.msgid) && Find(s.receiver.inbound, p.msgid) == None
    requires Find(s.sender.outbound, s.toReceiver[0].msgid) == Some(o)
    ensures Waits(s.sender.outbound, s.receiver.inbound, o) && s.toReceiver[0].content == o.body
  {
    var id := s.toReceiver[0].msgid;
    FindMember(s.sender.outbound, id);
    assert IdInv(true, Some(o), None, s.toReceiver, s.toSender, id);
    assert Has(s.toReceiver, Pub, id);
    assert o in s.sender.outbound && OutboundForm(o);
  }

  lemma FirstIsListed(s: System) returns (o: Message)
    requires Inv(true, s) && Enabled(s, ReceiverReads) && Is(s.toReceiver[0], Pub, s.toReceiver[0].msgid)
    ensures Find(s.sender.outbound, s.toReceiver[0].msgid) == Some(o)
  {
    var id := s.toReceiver[0].msgid;
    assert IdInv(true, Find(s.sender.outbound, id), Find(s.receiver.inbound, id), s.toReceiver, s.toSender, id);
    assert Has(s.toReceiver, Pub, id);
    o := Find(s.sender.outbound, id).m;
  }

  lemma LogRisesAppend(log: seq<Entry>, e: Entry)
    requires LogRises(log) && (e.qos == 2 ==> forall x :: x in log && x.qos == 2 ==> Num(x.content) < Num(e.content))
    ensures LogRises(log + [e])
  {
  }

  /** No two messages of the list have the same number. */
  ghost predicate Numbered(out: seq<Message>) {
    forall m, n :: m in out && n in out && Num(m.body) == Num(n.body) ==> m == n
  }

  lemma OutNumbered(out: seq<Message>, published: seq<Entry>)
    requires OutboundInv(out, published)
    ensures Numbered(out)
  {
    forall m, n | m in out && n in out && Num(m.body) == Num(n.body) ensures m == n {
      assert Genuine(published, Entry(m.body, m.qos, m.retain)) && Genuine(published, Entry(n.body, n.qos, n.retain));
    }
  }

  /** The message of the head is handed over: it is newer than all before it and older than all that still wait. */
  lemma HandedInOrder(out: seq<Message>, inb: seq<Message>, inb': seq<Message>, ch: seq<Packet>, log: seq<Entry>,
                      o: Message, e: Entry)
    requires Numbered(out) && LogRises(log) && LogBefore(out, inb, log) && Queued(out, inb, ch) && ch != []
    requires Waits(out, inb, o) && Is(ch[0], Pub, o.msgid) && e.content == o.body
    requires forall m :: Waits(out, inb', m) ==> Waits(out, inb, m) && !Is(ch[0], Pub, m.msgid)
    ensures LogRises(log + [e]) && LogBefore(out, inb', log + [e])
  {
    WaitsIsListed(out, inb);
    hide Queued;
    forall m | Waits(out, inb', m) ensures Num(e.content) < Num(m.body) {
      HeadIsOldest(out, inb, ch, m, o);
    }
    hide Waits;
    LogRisesAppend(log, e);
  }

  /** What is not of QoS 2 does not matter to the order. */
  lemma OthersInOrder(out: seq<Message>, inb: seq<Message>, inb': seq<Message>, log: seq<Entry>, e: Entry)
    requires LogRises(log) && LogBefore(out, inb, log) && e.qos != 2
    requires forall m :: Waits(out, inb', m) ==> Waits(out, inb, m)
    ensures LogRises(log + [e]) && LogBefore(out, inb', log + [e]) && LogBefore(out, inb', log)
  {
    hide Waits;
    LogRisesAppend(log, e);
  }

  lemma ReadInOrder(s: System)
    requires Inv(true, s) && Ordered(s) && Enabled(s, ReceiverReads)
    ensures Ordered(Do(s, true, ReceiverReads))
  {
    var out, inb, ch, log := s.sender.outbound, s.receiver.inbound, s.toReceiver, s.receiver.delivered;
    var t := Do(s, true, ReceiverReads);
    var inb', p := t.receiver.inbound, ch[0];
    ReceivedLog(s.receiver, p);
    OutNumbered(out, s.published);
    assert t.sender.outbound == out && t.toReceiver == ch[1..];
    assert t.receiver.delivered == ReceiverHandles(s.receiver, true, p).s.delivered;
    hide Do, Waits, ReceiverHandles, Queued, LogRises, LogBefore, Numbered;
    forall m | Waits(out, inb', m) ensures Waits(out, inb, m) && !Is(p, Pub, m.msgid) {
      ReadWaits(s, inb', m);
    }
    QueuedPop(out, inb, inb', ch);
    OthersInOrder(out, inb, inb', log, Entry(NoContent, 0, false));
    if p.Publish? && t.receiver.delivered != log {
      var e := Entry(p.content, p.qos, p.retain);
      if p.qos == 2 {
        var o := FirstIsListed(s);
        FirstWaits(s, o);
        assert o.msgid == p.msgid by { FindMember(out, p.msgid); }
        HandedInOrder(out, inb, inb', ch, log, o, e);
      } else {
        OthersInOrder(out, inb, inb', log, e);
      }
    }
  }

  // ---- drops and restarts, made good by a full retry

  /** Every message of the list is due for a retry. */
  ghost predicate AllDue(out: seq<Message>, due: set<nat>) {
    forall j: nat :: j < |out| ==> j in due
  }

  /** One packet for each message, in the order of the list. */
  ghost predicate Resending(out: seq<Message>, ch: seq<Packet>) {
    |ch| == |out| && forall j :: 0 <= j < |out| ==> Resend(out[j]) == [ch[j]]
  }

  lemma {:induction false} AllResent(ms: seq<Message>, due: set<nat>, k: nat)
    requires k <= |ms| && (forall m :: m in ms ==> OutboundForm(m)) && AllDue(ms, due)
    ensures Resending(ms[k..], Resends(ms, due, k))
    decreases |ms| - k
  {
    if k < |ms| {
      AllResent(ms, due, k + 1);
      assert ms[k] in ms && |Resend(ms[k])| == 1;
      assert ms[k..] == [ms[k]] + ms[k + 1..];
      hide Resend, Resending, OutboundForm;
      ResendingOne(ms[k], Resend(ms[k])[0], ms[k + 1..], Resends(ms, due, k + 1));
    }
  }

  lemma ResendingOne(m: Message, p: Packet, out: seq<Message>, ch: seq<Packet>)
    requires Resending(out, ch) && Resend(m) == [p]
    ensures Resending([m] + out, [p] + ch)
  {
    hide Resend;
  }

  lemma CopyAt(out: seq<Message>, inb: seq<Message>, ch: seq<Packet>, m: Message) returns (j: nat)
    requires Resending(out, ch) && Waits(out, inb, m)
    ensures j < |out| && out[j] == m && Is(ch[j], Pub, m.msgid)
  {
    j := IndexOf(out, m.msgid);
    assert Resend(out[j]) == [ch[j]];
  }

  lemma CopyOf(out: seq<Message>, inb: seq<Message>, ch: seq<Packet>, k: nat, n: Message)
    requires Resending(out, ch) && DistinctIds(out) && Waits(out, inb, n) && k < |ch| && Is(ch[k], Pub, n.msgid)
    ensures out[k] == n
  {
    assert Resend(out[k]) == [ch[k]] && out[k].msgid == n.msgid;
    assert IndexOf(out, n.msgid) == k;
  }

  /** After a full retry of the list in its order everything that waits is under way in that order. */
  lemma QueuedAgain(out: seq<Message>, inb: seq<Message>, ch: seq<Packet>)
    requires Rising(out) && DistinctIds(out) && Resending(out, ch)
    ensures Queued(out, inb, ch)
  {
    hide Waits, Resending;
    forall m | Waits(out, inb, m) ensures Has(ch, Pub, m.msgid) {
      var j := CopyAt(out, inb, ch, m);
      assert |ch| == |out| by { SameLength(out, ch); }
    }
    forall m, n, k | Waits(out, inb, m) && Waits(out, inb, n) && Num(m.body) < Num(n.body) &&
      0 <= k < |ch| && Is(ch[k], Pub, n.msgid) ensures Has(ch[..k], Pub, m.msgid)
    {
      SameLength(out, ch);
      var j := CopyAt(out, inb, ch, m);
      CopyOf(out, inb, ch, k, n);
      assert j < k;
      assert Is(ch[..k][j], Pub, m.msgid);
    }
  }

  lemma SameLength(out: seq<Message>, ch: seq<Packet>)
    requires Resending(out, ch)
    ensures |ch| == |out|
  {
  }

  lemma RetriedInOrder(s: System, due: set<nat>)
    requires Inv(true, s) && Rising(s.sender.outbound) && Logged(s)
    requires s.toReceiver == [] && AllDue(s.sender.outbound, due)
    ensures Ordered(Do(s, true, RetryPass(due)))
  {
    var out := s.sender.outbound;
    Retries(true, s, due);
    assert forall m :: m in out ==> OutboundForm(m);
    assert s.toReceiver + Resends(out, due, 0) == Resends(out, due, 0);
    hide Do, Waits, Resends, LogRises, LogBefore, Rising;
    AllResent(out, due, 0);
    assert out[0..] == out;
    QueuedAgain(out, s.receiver.inbound, Resends(out, due, 0));
  }

  predicate Empties(step: Step) {
    step.Drop? || step.SenderRestarts? || step.ReceiverRestarts?
  }

  /** A restart of the sender finds its list in an order that recovery can tell. */
  ghost predicate OrderTold(s: System, step: Step) {
    step.SenderRestarts? ==> CyclicUp(s.sender.outbound) && AllBeaten(s.sender.outbound)
  }

  lemma EmptiedInOrder(s: System, step: Step)
    requires Inv(true, s) && Logged(s) && Enabled(s, step) && Empties(step) && OrderTold(s, step)
    ensures Logged(Do(s, true, step)) && Do(s, true, step).toReceiver == []
    ensures Do(s, true, step).sender.outbound == s.sender.outbound
  {
    match step
    case Drop =>
    case SenderRestarts(keys) => SenderBack(true, s, keys);
    case ReceiverRestarts(keys) => ReceiverBack(s, keys);
  }

  lemma SenderBack(v5: bool, s: System, keys: seq<Key>)
    requires Inv(v5, s) && Enabled(s, SenderRestarts(keys)) && OrderTold(s, SenderRestarts(keys))
    ensures Do(s, v5, SenderRestarts(keys)).sender.outbound == s.sender.outbound
  {
    var out := s.sender.outbound;
    assert forall i :: 0 <= i < |out| ==> out[i] in out;
    RestoreMirrored(v5, out, s.sender.inbound, s.sender.store, keys);
  }

  lemma ReceiverBack(s: System, keys: seq<Key>)
    requires Inv(true, s) && Logged(s) && Enabled(s, ReceiverRestarts(keys))
    ensures Logged(Do(s, true, ReceiverRestarts(keys)))
  {
    var r := s.receiver;
    var back := RestorePackets(r.store, true, keys).inbound;
    RestoreMirrored(true, r.outbound, r.inbound, r.store, keys);
    InboundBack(true, r.inbound, back);
    WaitsBack(s.sender.outbound, r.inbound, back);
    hide Find, RestorePackets, Mirror, Rising, LogRises, Waits, Inv;
  }

  lemma WaitsBack(out: seq<Message>, inb: seq<Message>, back: seq<Message>)
    requires forall i :: Find(back, i) == if Find(inb, i).Some? then Some(Strip(true, Find(inb, i).m)) else None
    ensures forall m :: Waits(out, back, m) ==> Waits(out, inb, m)
  {
    hide Find;
  }

  // ---- over whole runs

  /** Every drop or restart is followed by a full retry before anything else than another drop or restart happens:
      both clients retry all they have in flight as soon as they are connected again. */
  ghost predicate Reconnects(states: seq<System>, steps: seq<Step>)
    requires |states| == |steps| + 1
  {
    && (forall k :: 0 <= k < |steps| ==> OrderTold(states[k], steps[k]))
    && (forall k :: 0 <= k < |steps| && k > 0 && Empties(steps[k - 1]) ==>
          Empties(steps[k]) || (steps[k].RetryPass? && AllDue(states[k].sender.outbound, steps[k].due)))
  }

  lemma StaysRising(v5: bool, s: System, step: Step)
    requires Inv(v5, s) && Rising(s.sender.outbound) && Enabled(s, step) && OrderTold(s, step)
    ensures Rising(Do(s, v5, step).sender.outbound)
  {
    match step
    case PublishCall(_, _, qos, _) =>
      Publishes(v5, s, step);
      OlderThan(v5, s);
      hide Inv, Do, Enabled, Rising;
      if qos != 0 { RisingAppend(s.sender.outbound, Published(s, step)); }
    case SenderReads =>
      SenderLists(v5, s);
      AckedRises(s);
    case SenderRestarts(keys) => SenderBack(v5, s, keys);
    case _ =>
  }

  lemma RisingAppend(out: seq<Message>, m: Message)
    requires Rising(out) && forall x :: x in out ==> Num(x.body) < Num(m.body)
    ensures Rising(out + [m])
  {
  }

  lemma AckedRises(s: System)
    requires Rising(s.sender.outbound) && Enabled(s, SenderReads)
    ensures Rising(AckedOut(s))
  {
  }

  lemma ConnectedStep(s: System, step: Step)
    requires Inv(true, s) && Ordered(s) && Enabled(s, step) && !Empties(step)
    ensures Ordered(Do(s, true, step))
  {
    hide Inv, Ordered, Do, Enabled;
    match step
    case PublishCall(_, _, _, _) => PublishInOrder(s, step);
    case ReceiverReads => ReadInOrder(s);
    case SenderReads => SenderInOrder(s);
    case RetryPass(due) => RetryInOrder(s, due);
    case _ =>
  }

  lemma StepInOrder(s: System, step: Step)
    requires Inv(true, s) && Rising(s.sender.outbound) && Logged(s) && Enabled(s, step) && OrderTold(s, step)
    requires Flowing(s) || Empties(step) ||
      (s.toReceiver == [] && step.RetryPass? && AllDue(s.sender.outbound, step.due))
    ensures var t := Do(s, true, step);
            Rising(t.sender.outbound) && Logged(t) && if Empties(step) then t.toReceiver == [] else Flowing(t)
  {
    StaysRising(true, s, step);
    hide Inv, Rising, Logged, Flowing, Do, Enabled, OrderTold;
    if Empties(step) {
      EmptiedInOrder(s, step);
    } else if Flowing(s) {
      ConnectedStep(s, step);
    } else {
      RetriedInOrder(s, step.due);
    }
  }

  lemma {:induction false} RunInOrder(states: seq<System>, steps: seq<Step>, k: nat)
    requires Run(true, states, steps) && Reconnects(states, steps) && k < |states|
    ensures Rising(states[k].sender.outbound) && Logged(states[k])
    ensures if k > 0 && Empties(steps[k - 1]) then states[k].toReceiver == [] else Flowing(states[k])
  {
    if k > 0 {
      var j := k - 1;
      RunInOrder(states, steps, j);
      RunInv(true, states, steps, j);
      assert states[j + 1] == Do(states[j], true, steps[j]);
      hide Inv, Rising, Logged, Flowing, Do, Enabled, OrderTold, Empties;
      StepInOrder(states[j], steps[j]);
    }
  }

  /** In version 5, over every run that reconnects like this, with live retries, drops and restarts of either side at
      will, the QoS 2 messages are delivered in the order of their publish calls. */
  lemma InOrder(states: seq<System>, steps: seq<Step>, k: nat)
    requires Run(true, states, steps) && Reconnects(states, steps) && k < |states|
    ensures LogRises(states[k].receiver.delivered)
  {
    RunInOrder(states, steps, k);
  }

  // ---- a retry that stops short

  /** What a retry that stops short costs: of two messages on record only the first is sent again before the socket
      fills up, a third is published, and the second comes last when the retry goes on. */
  lemma LateRetryLosesOrder(a: Step, b: Step, c: Step) returns (s: System)
    requires a.PublishCall? && b.PublishCall? && c.PublishCall? && a.qos == b.qos == c.qos == 2
    ensures Goes(true, START, [a, b] + [Drop, RetryPass({0})] + [c, ReceiverReads] + [ReceiverReads, RetryPass({1})] +
                              [ReceiverReads], s)
    ensures !LogRises(s.receiver.delivered)
  {
    hide Do, Enabled;
    var m := Message(1, 2, a.retain, PubRec, Content(0, a.topic, a.payload));
    var n := Message(2, 2, b.retain, PubRec, Content(1, b.topic, b.payload));
    var o := Message(3, 2, c.retain, PubRec, Content(2, c.topic, c.payload));
    var s2 := TwoPublished(a, b, m, n);
    var s4 := FirstResent(s2, m, n);
    var s6 := ThirdPublished(s4, c, m, n, o);
    var s8 := SecondResent(s6, m, n, o);
    s := SecondRead(s8, m, n, o);
    assert Num(s.receiver.delivered[1].content) == 2 && Num(s.receiver.delivered[2].content) == 1;
    var x, y, z := [a, b], [Drop, RetryPass({0})], [c, ReceiverReads];
    var u, v := [ReceiverReads, RetryPass({1})], [ReceiverReads];
    hide Goes;
    GoesTwo(true, START, a, b);
    GoesTwo(true, s2, Drop, RetryPass({0}));
    GoesTwo(true, s4, c, ReceiverReads);
    GoesTwo(true, s6, ReceiverReads, RetryPass({1}));
    GoesOne(true, s8, ReceiverReads);
    GoesFive(START, x, s2, y, s4, z, s6, u, s8, v, s);
  }

  lemma GoesFive(a: System, x: seq<Step>, b: System, y: seq<Step>, c: System, z: seq<Step>, d: System, u: seq<Step>,
                 e: System, v: seq<Step>, f: System)
    requires Goes(true, a, x, b) && Goes(true, b, y, c) && Goes(true, c, z, d)
    requires Goes(true, d, u, e) && Goes(true, e, v, f)
    ensures Goes(true, a, x + y + z + u + v, f)
  {
    hide Goes;
    GoesThen(true, a, x, b, y, c);
    GoesThen(true, a, x + y, c, z, d);
    GoesThen(true, a, x + y + z, d, u, e);
    GoesThen(true, a, x + y + z + u, e, v, f);
  }

  lemma TwoPublished(a: Step, b: Step, m: Message, n: Message) returns (t: System)
    requires a.PublishCall? && b.PublishCall? && a.qos == b.qos == 2
    requires m == Message(1, 2, a.retain, PubRec, Content(0, a.topic, a.payload))
    requires n == Message(2, 2, b.retain, PubRec, Content(1, b.topic, b.payload))
    ensures Enabled(START, a) && Enabled(Do(START, true, a), b) && t == Do(Do(START, true, a), true, b)
    ensures t.sender.outbound == [m, n] && t.sender.msgID == 2 && t.receiver == FRESH && |t.published| == 2
  {
    assert Ids([]) == {} && Ids([m]) == {1};
    assert Assign(0, {}) == 1 && Assign(1, {1}) == 2;
    var s := Do(START, true, a);
    assert s.sender.outbound == [m];
    t := Do(s, true, b);
  }

  /** The list with two messages of which the retry reaches the first. */
  lemma FirstResent(s: System, m: Message, n: Message) returns (t: System)
    requires s.sender.outbound == [m, n] && m.qos == 2 && m.next == PubRec
    ensures Enabled(s, Drop) && Enabled(Do(s, true, Drop), RetryPass({0}))
    ensures t == Do(Do(s, true, Drop), true, RetryPass({0}))
    ensures t.sender.outbound == [m, n] && t.sender.msgID == s.sender.msgID
    ensures t.receiver == s.receiver && t.published == s.published
    ensures t.toReceiver == [Publish(true, 2, m.retain, m.msgid, m.body)]
  {
    ResendsNone([m, n], 1);
    t := Do(Do(s, true, Drop), true, RetryPass({0}));
  }

  lemma ThirdPublished(s: System, c: Step, m: Message, n: Message, o: Message) returns (t: System)
    requires s.sender.outbound == [m, n] && m.msgid == 1 && n.msgid == 2 && s.sender.msgID == 2 && s.receiver == FRESH
    requires s.toReceiver == [Publish(true, 2, m.retain, 1, m.body)] && |s.published| == 2
    requires c.PublishCall? && c.qos == 2 && o == Message(3, 2, c.retain, PubRec, Content(2, c.topic, c.payload))
    ensures Enabled(s, c) && Enabled(Do(s, true, c), ReceiverReads) && t == Do(Do(s, true, c), true, ReceiverReads)
    ensures t.sender.outbound == [m, n, o] && t.toReceiver == [Publish(false, 2, o.retain, 3, o.body)]
    ensures t.receiver.delivered == [Entry(m.body, 2, m.retain)] && Ids(t.receiver.inbound) == {1}
  {
    assert Ids(s.sender.outbound) == {1, 2};
    assert Assign(2, {1, 2}) == 3;
    var r := Do(s, true, c);
    assert r.toReceiver == [Publish(true, 2, m.retain, 1, m.body), Publish(false, 2, o.retain, 3, o.body)];
    t := Do(r, true, ReceiverReads);
  }

  lemma SecondResent(s: System, m: Message, n: Message, o: Message) returns (t: System)
    requires s.sender.outbound == [m, n, o] && n.qos == 2 && n.next == PubRec
    requires s.toReceiver == [Publish(false, 2, o.retain, 3, o.body)]
    requires s.receiver.delivered == [Entry(m.body, 2, m.retain)] && Ids(s.receiver.inbound) == {1}
    ensures Enabled(s, ReceiverReads) && Enabled(Do(s, true, ReceiverReads), RetryPass({1}))
    ensures t == Do(Do(s, true, ReceiverReads), true, RetryPass({1}))
    ensures t.toReceiver == [Publish(true, 2, n.retain, n.msgid, n.body)] && Ids(t.receiver.inbound) == {1, 3}
    ensures t.receiver.delivered == [Entry(m.body, 2, m.retain), Entry(o.body, 2, o.retain)]
  {
    var inb := s.receiver.inbound;
    assert 3 !in Ids(inb);
    assert IndexOf(inb, 3) == |inb|;
    var r := Do(s, true, ReceiverReads);
    assert r.toReceiver == [] && r.receiver.inbound == inb + [Message(3, 2, o.retain, PubRel, NoContent)];
    assert Ids(r.receiver.inbound) == {1, 3};
    MiddleResent(m, n, o);
    hide Resends, IndexOf;
    t := Do(r, true, RetryPass({1}));
  }

  lemma MiddleResent(m: Message, n: Message, o: Message)
    ensures Resends([m, n, o], {1}, 0) == Resend(n)
  {
    hide Resend;
    assert Resends([m, n, o], {1}, 2) == Resends([m, n, o], {1}, 3) == [];
    assert Resends([m, n, o], {1}, 1) == Resend(n) + [];
  }

  lemma SecondRead(s: System, m: Message, n: Message, o: Message) returns (t: System)
    requires s.toReceiver == [Publish(true, 2, n.retain, 2, n.body)] && Ids(s.receiver.inbound) == {1, 3}
    requires s.receiver.delivered == [Entry(m.body, 2, m.retain), Entry(o.body, 2, o.retain)]
    ensures Enabled(s, ReceiverReads) && t == Do(s, true, ReceiverReads)
    ensures t.receiver.delivered == s.receiver.delivered + [Entry(n.body, 2, n.retain)]
  {
    assert 2 !in Ids(s.receiver.inbound);
    t := Do(s, true, ReceiverReads);
  }
}
