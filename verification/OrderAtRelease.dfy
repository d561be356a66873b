/** Ordered delivery (section 4.6 of MQTT 3.1.1) over the two endpoints of Delivery.dfy, in version 3.1.1, which
    delivers a QoS 2 message when its PUBREL comes: PUBLISH, PUBREC and PUBREL each keep the messages in order. */
module OrderAtRelease {
  import opened Session
  import opened Recovery
  import opened Delivery
  import opened Ordering

  /** m is on record and has not been delivered. */
  ghost predicate Unreleased(out: seq<Message>, inb: seq<Message>, m: Message) {
    Find(out, m.msgid) == Some(m) && m.qos == 2 && (m.next == PubRec || (m.next == PubComp && Find(inb, m.msgid).Some?))
  }

  /** Every t of message b has a t of message a in front of it. */
  ghost predicate Behind(ch: seq<Packet>, t: Tag, a: int, b: int) {
    forall k :: 0 <= k < |ch| && Is(ch[k], t, b) ==> Has(ch[..k], t, a)
  }

  /** What takes an undelivered message further is under way. */
  ghost predicate Moving(m: Message, toR: seq<Packet>, toS: seq<Packet>) {
    if m.next == PubComp then Has(toR, Rel, m.msgid) else Has(toR, Pub, m.msgid) || Has(toS, Rec, m.msgid)
  }

  /** m is at least as far as n, and its packets are in front of n's. */
  ghost predicate Leads(m: Message, n: Message, toR: seq<Packet>, toS: seq<Packet>) {
    if n.next == PubComp then m.next == PubComp && Behind(toR, Rel, m.msgid, n.msgid)
    else m.next == PubComp ||
         (Behind(toS, Rec, m.msgid, n.msgid) && (Has(toS, Rec, m.msgid) || Behind(toR, Pub, m.msgid, n.msgid)))
  }

  /** Of two undelivered messages the older one leads. */
  ghost predicate InLine(out: seq<Message>, inb: seq<Message>, toR: seq<Packet>, toS: seq<Packet>) {
    && (forall m :: Unreleased(out, inb, m) ==> Moving(m, toR, toS))
    && forall m, n :: Unreleased(out, inb, m) && Unreleased(out, inb, n) && Num(m.body) < Num(n.body) ==>
         Leads(m, n, toR, toS)
  }

  /** None of them is further than an older one, whatever is under way. */
  ghost predicate StagesInLine(out: seq<Message>, inb: seq<Message>) {
    forall m, n :: Unreleased(out, inb, m) && Unreleased(out, inb, n) && Num(m.body) < Num(n.body) ==>
      n.next == PubComp ==> m.next == PubComp
  }

  ghost predicate LogBefore(out: seq<Message>, inb: seq<Message>, log: seq<Entry>) {
    forall e, m :: e in log && e.qos == 2 && Unreleased(out, inb, m) ==> Num(e.content) < Num(m.body)
  }

  ghost predicate Logged(s: System) {
    LogRises(s.receiver.delivered) && LogBefore(s.sender.outbound, s.receiver.inbound, s.receiver.delivered)
  }

  ghost predicate Flowing(s: System) {
    InLine(s.sender.outbound, s.receiver.inbound, s.toReceiver, s.toSender)
  }

  ghost predicate Ordered(s: System) {
    Logged(s) && Flowing(s)
  }

  // ---- one channel

  lemma BehindPop(ch: seq<Packet>, t: Tag, a: int, b: int)
    requires Behind(ch, t, a, b) && ch != []
    ensures !Is(ch[0], t, b) && (Is(ch[0], t, a) || Behind(ch[1..], t, a, b))
  {
    var tl := ch[1..];
    assert !Has(ch[..0], t, a);
    if !Is(ch[0], t, a) {
      forall k | 0 <= k < |tl| && Is(tl[k], t, b) ensures Has(tl[..k], t, a) {
        assert tl[k] == ch[k + 1] && ch[..k + 1][1..] == tl[..k] && ch[..k + 1][0] == ch[0];
        Pop(ch[..k + 1], a);
      }
    }
  }

  lemma HasMore(ch: seq<Packet>, more: seq<Packet>, t: Tag, id: int)
    requires Has(ch, t, id)
    ensures Has(ch + more, t, id)
  {
    var k :| 0 <= k < |ch| && Is(ch[k], t, id);
    assert Is((ch + more)[k], t, id);
  }

  /** What comes behind is in order if all of a's, or none of b's, was there. */
  lemma BehindPush(ch: seq<Packet>, more: seq<Packet>, t: Tag, a: int, b: int)
    requires if Has(ch, t, a) then Behind(ch, t, a, b) || !Has(ch, t, b) else Behind(ch, t, a, b) && !Has(more, t, b)
    ensures Behind(ch + more, t, a, b)
  {
    var l := ch + more;
    forall k | 0 <= k < |l| && Is(l[k], t, b) ensures Has(l[..k], t, a) {
      if k < |ch| {
        assert l[k] == ch[k] && l[..k] == ch[..k];
        assert Has(ch, t, b);
      } else {
        assert l[k] == more[k - |ch|] && Has(more, t, b);
        assert l[..k] == ch + l[|ch|..k];
        HasMore(ch, l[|ch|..k], t, a);
      }
    }
  }

  lemma NoneBehindNothing(ch: seq<Packet>, t: Tag, a: int, b: int)
    requires !Has(ch, t, b)
    ensures Behind(ch, t, a, b)
  {
  }

  // ---- two messages and one packet

  /** Whatever follows leaves the order as it is. */
  lemma LeadsAppend(m: Message, n: Message, toR: seq<Packet>, toS: seq<Packet>, more: seq<Packet>)
    requires Leads(m, n, toR, toS) && Moving(m, toR, toS)
    ensures Leads(m, n, toR + more, toS) && Moving(m, toR + more, toS)
  {
    hide Has, Behind;
    if m.next == PubComp {
      HasMore(toR, more, Rel, m.msgid);
      if n.next == PubComp { BehindPush(toR, more, Rel, m.msgid, n.msgid); }
    } else if Has(toR, Pub, m.msgid) {
      HasMore(toR, more, Pub, m.msgid);
      if !Has(toS, Rec, m.msgid) { BehindPush(toR, more, Pub, m.msgid, n.msgid); }
    }
  }

  /** n has just been published. */
  lemma LeadsNew(m: Message, n: Message, toR: seq<Packet>, toS: seq<Packet>, more: seq<Packet>)
    requires n.next == PubRec && Moving(m, toR, toS) && !Has(toR, Pub, n.msgid) && !Has(toS, Rec, n.msgid)
    ensures Leads(m, n, toR + more, toS)
  {
    hide Has;
    NoneBehindNothing(toS, Rec, m.msgid, n.msgid);
    if m.next != PubComp && !Has(toS, Rec, m.msgid) { BehindPush(toR, more, Pub, m.msgid, n.msgid); }
  }

  /** The sender reads something that is no PUBREC of these two. */
  lemma LeadsPopBack(m: Message, n: Message, toR: seq<Packet>, toS: seq<Packet>)
    requires Leads(m, n, toR, toS) && Moving(m, toR, toS) && toS != []
    requires !Is(toS[0], Rec, m.msgid)
    ensures Leads(m, n, toR, toS[1..]) && Moving(m, toR, toS[1..])
  {
    Pop(toS, m.msgid);
    hide Has, Behind, NoneBehind, PubsAre;
    if n.next != PubComp && m.next != PubComp { BehindPop(toS, Rec, m.msgid, n.msgid); }
  }

  function Advanced(m: Message, id: int): Message {
    if m.msgid == id && m.next == PubRec then m.(next := PubComp) else m
  }

  /** The sender reads a PUBREC. */
  lemma LeadsRec(m: Message, n: Message, toR: seq<Packet>, toS: seq<Packet>, id: int)
    requires Leads(m, n, toR, toS) && Moving(m, toR, toS) && toS != [] && Is(toS[0], Rec, id)
    requires m.next != PubComp ==> m.next == PubRec
    requires n.next == PubRec && n.msgid == id ==> !Has(toR, Rel, id)
    ensures Leads(Advanced(m, id), Advanced(n, id), toR + [Pubrel(id)], toS[1..])
    ensures Moving(Advanced(m, id), toR + [Pubrel(id)], toS[1..])
  {
    Push(toR, Pubrel(id), m.msgid);
    Push(toR, Pubrel(id), n.msgid);
    assert Is(Pubrel(id), Rel, id);
    if n.msgid == id && n.next == PubRec {
      hide Has, NoneBehind, PubsAre;
      if m.next != PubComp { BehindPop(toS, Rec, m.msgid, n.msgid); }
      assert m.next == PubComp;
      BehindPush(toR, [Pubrel(id)], Rel, m.msgid, n.msgid);
    } else if m.msgid == id {
      if n.next == PubComp { BehindPush(toR, [Pubrel(id)], Rel, m.msgid, n.msgid); }
    } else {
      LeadsPopBack(m, n, toR, toS);
      LeadsAppend(m, n, toR, toS[1..], [Pubrel(id)]);
    }
  }

  /** The receiver reads a PUBLISH of QoS 2. */
  lemma LeadsPub(m: Message, n: Message, toR: seq<Packet>, toS: seq<Packet>, id: int)
    requires Leads(m, n, toR, toS) && Moving(m, toR, toS) && toR != [] && Is(toR[0], Pub, id)
    ensures Leads(m, n, toR[1..], toS + [Pubrec(id, 0)]) && Moving(m, toR[1..], toS + [Pubrec(id, 0)])
  {
    Pop(toR, m.msgid);
    Push(toS, Pubrec(id, 0), m.msgid);
    hide Has, Behind, NoneBehind, PubsAre;
    if m.next == PubComp {
      if n.next == PubComp { BehindPop(toR, Rel, m.msgid, n.msgid); }
    } else {
      if !Has(toS, Rec, m.msgid) { BehindPop(toR, Pub, m.msgid, n.msgid); }
      LeadsPubRecs(m.msgid, n.msgid, toS, id);
    }
  }

  lemma LeadsPubRecs(a: int, b: int, toS: seq<Packet>, id: int)
    requires Behind(toS, Rec, a, b) && (Has(toS, Rec, a) || id != b)
    ensures Behind(toS + [Pubrec(id, 0)], Rec, a, b)
  {
    assert id != b ==> !Has([Pubrec(id, 0)], Rec, b);
    BehindPush(toS, [Pubrec(id, 0)], Rec, a, b);
  }

  /** The receiver reads something else; it is no PUBREL of m. */
  lemma LeadsPop(m: Message, n: Message, toR: seq<Packet>, toS: seq<Packet>, back: seq<Packet>)
    requires Leads(m, n, toR, toS) && Moving(m, toR, toS) && toR != []
    requires forall t :: t == Pub || (t == Rel && m.next == PubComp) ==> !Is(toR[0], t, m.msgid)
    requires forall i :: !Has(back, Rec, i)
    ensures Leads(m, n, toR[1..], toS + back) && Moving(m, toR[1..], toS + back)
  {
    Pop(toR, m.msgid);
    hide Has, Behind, NoneBehind, PubsAre;
    if m.next == PubComp {
      if n.next == PubComp { BehindPop(toR, Rel, m.msgid, n.msgid); }
    } else {
      if Has(toS, Rec, m.msgid) { HasMore(toS, back, Rec, m.msgid); } else { BehindPop(toR, Pub, m.msgid, n.msgid); }
      BehindPush(toS, back, Rec, m.msgid, n.msgid);
    }
  }

  // ---- the sender's steps

  lemma HasAfter(ch: seq<Packet>, more: seq<Packet>, t: Tag, id: int)
    requires Has(more, t, id)
    ensures Has(ch + more, t, id)
  {
    var k :| 0 <= k < |more| && Is(more[k], t, id);
    assert Is((ch + more)[|ch| + k], t, id);
  }

  /** Packets behind the others, and a list in which only what is newest is new. */
  lemma InLineAppend(out: seq<Message>, inb: seq<Message>, out': seq<Message>, toR: seq<Packet>, more: seq<Packet>,
                     toS: seq<Packet>)
    requires InLine(out, inb, toR, toS)
    requires forall m :: Unreleased(out', inb, m) && !Unreleased(out, inb, m) ==>
      && m.next == PubRec && Has(more, Pub, m.msgid) && !Has(toR, Pub, m.msgid) && !Has(toS, Rec, m.msgid)
      && forall n :: Unreleased(out', inb, n) ==> Num(n.body) <= Num(m.body)
    ensures InLine(out', inb, toR + more, toS)
  {
    hide Unreleased, Moving, Leads, Has;
    forall m | Unreleased(out', inb, m) ensures Moving(m, toR + more, toS) {
      if Unreleased(out, inb, m) {
        MovingAppend(m, toR, toS, more);
      } else {
        HasAfter(toR, more, Pub, m.msgid);
        MovesAsPublished(m, toR + more, toS);
      }
    }
    forall m, n | Unreleased(out', inb, m) && Unreleased(out', inb, n) && Num(m.body) < Num(n.body)
      ensures Leads(m, n, toR + more, toS)
    {
      assert Unreleased(out, inb, m);
      if Unreleased(out, inb, n) { LeadsAppend(m, n, toR, toS, more); } else { LeadsNew(m, n, toR, toS, more); }
    }
  }

  lemma MovingAppend(m: Message, toR: seq<Packet>, toS: seq<Packet>, more: seq<Packet>)
    requires Moving(m, toR, toS)
    ensures Moving(m, toR + more, toS)
  {
    hide Has;
    if m.next == PubComp { HasMore(toR, more, Rel, m.msgid); }
    else if Has(toR, Pub, m.msgid) { HasMore(toR, more, Pub, m.msgid); }
  }

  lemma MovesAsPublished(m: Message, toR: seq<Packet>, toS: seq<Packet>)
    requires m.next == PubRec && Has(toR, Pub, m.msgid)
    ensures Moving(m, toR, toS)
  {
  }

  lemma PublishInOrder(s: System, step: Step)
    requires Inv(false, s) && Ordered(s) && Enabled(s, step) && step.PublishCall?
    ensures Ordered(Do(s, false, step))
  {
    var out, inb := s.sender.outbound, s.receiver.inbound;
    var t := Do(s, false, step);
    var out' := t.sender.outbound;
    Publishes(false, s, step);
    OlderThan(false, s);
    PublishUnreleased(s, step, out');
    UnreleasedIsListed(out', inb);
    hide Inv, Do, Enabled, Unreleased, PublishSent, LogRises, Has, InLine;
    InLineAppend(out, inb, out', s.toReceiver, [PublishSent(s, step)], s.toSender);
  }

  lemma UnreleasedIsListed(out: seq<Message>, inb: seq<Message>)
    ensures forall m :: Unreleased(out, inb, m) ==> m in out
  {
  }

  lemma PublishUnreleased(s: System, step: Step, out': seq<Message>)
    requires Inv(false, s) && Enabled(s, step) && step.PublishCall?
    requires out' == if step.qos == 0 then s.sender.outbound else s.sender.outbound + [Published(s, step)]
    ensures forall x :: Unreleased(out', s.receiver.inbound, x) ==>
      Unreleased(s.sender.outbound, s.receiver.inbound, x) || (x == Published(s, step) && x.next == PubRec)
    ensures Unreleased(out', s.receiver.inbound, Published(s, step)) ==>
      var id := Published(s, step).msgid;
      Has([PublishSent(s, step)], Pub, id) && !Has(s.toReceiver, Pub, id) && !Has(s.toSender, Rec, id)
  {
    var m := Published(s, step);
    if step.qos != 0 {
      PublishedFind(s, step);
      assert IdInv(false, None, Find(s.receiver.inbound, m.msgid), s.toReceiver, s.toSender, m.msgid);
      if step.qos == 2 { assert Is([PublishSent(s, step)][0], Pub, m.msgid); }
      hide Find, Has;
    }
  }

  lemma RetryInOrder(s: System, due: set<nat>)
    requires Inv(false, s) && Ordered(s)
    ensures Ordered(Do(s, false, RetryPass(due)))
  {
    Retries(false, s, due);
    hide Inv, Unreleased, Do, Resends, InLine;
    var out, inb := s.sender.outbound, s.receiver.inbound;
    InLineAppend(out, inb, out, s.toReceiver, Resends(out, due, 0), s.toSender);
  }

  /** An acknowledgement other than PUBREC. */
  lemma InLinePopBack(out: seq<Message>, inb: seq<Message>, out': seq<Message>, toR: seq<Packet>, toS: seq<Packet>)
    requires InLine(out, inb, toR, toS) && toS != [] && !toS[0].Pubrec?
    requires forall m :: Unreleased(out', inb, m) ==> Unreleased(out, inb, m)
    ensures InLine(out', inb, toR, toS[1..])
  {
    hide Unreleased, Moving, Leads;
    forall m | Unreleased(out', inb, m) ensures Moving(m, toR, toS[1..]) {
      MovingPopBack(m, toR, toS);
    }
    forall m, n | Unreleased(out', inb, m) && Unreleased(out', inb, n) && Num(m.body) < Num(n.body)
      ensures Leads(m, n, toR, toS[1..])
    {
      LeadsPopBack(m, n, toR, toS);
    }
  }

  lemma MovingPopBack(m: Message, toR: seq<Packet>, toS: seq<Packet>)
    requires Moving(m, toR, toS) && toS != [] && !Is(toS[0], Rec, m.msgid)
    ensures Moving(m, toR, toS[1..])
  {
    Pop(toS, m.msgid);
    hide Has, NoneBehind, PubsAre;
  }

  /** A PUBREC: m is what the message before has become. */
  lemma InLineRec(out: seq<Message>, inb: seq<Message>, out': seq<Message>, toR: seq<Packet>, toS: seq<Packet>, id: int)
    requires InLine(out, inb, toR, toS) && toS != [] && Is(toS[0], Rec, id)
    requires forall m :: Unreleased(out', inb, m) ==>
      exists o :: Unreleased(out, inb, o) && m == Advanced(o, id)
    requires forall o :: Unreleased(out, inb, o) && o.msgid == id && o.next == PubRec ==> !Has(toR, Rel, id)
    ensures InLine(out', inb, toR + [Pubrel(id)], toS[1..])
  {
    UnreleasedNext(out, inb);
    hide Unreleased, Moving, Leads, Has;
    var toR', toS' := toR + [Pubrel(id)], toS[1..];
    forall m | Unreleased(out', inb, m) ensures Moving(m, toR', toS') {
      var o :| Unreleased(out, inb, o) && m == Advanced(o, id);
      MovingRec(o, toR, toS, id);
    }
    forall m, n | Unreleased(out', inb, m) && Unreleased(out', inb, n) && Num(m.body) < Num(n.body)
      ensures Leads(m, n, toR', toS')
    {
      var o :| Unreleased(out, inb, o) && m == Advanced(o, id);
      var p :| Unreleased(out, inb, p) && n == Advanced(p, id);
      LeadsRec(o, p, toR, toS, id);
    }
  }

  lemma UnreleasedNext(out: seq<Message>, inb: seq<Message>)
    ensures forall m :: Unreleased(out, inb, m) ==> m.next == PubRec || m.next == PubComp
  {
  }

  lemma MovingRec(m: Message, toR: seq<Packet>, toS: seq<Packet>, id: int)
    requires Moving(m, toR, toS) && toS != [] && Is(toS[0], Rec, id) && (m.next == PubRec || m.next == PubComp)
    ensures Moving(Advanced(m, id), toR + [Pubrel(id)], toS[1..])
  {
    Pop(toS, m.msgid);
    Push(toR, Pubrel(id), m.msgid);
    assert Is(Pubrel(id), Rel, id);
    hide Has, NoneBehind, PubsAre;
  }

  lemma AckedUnreleased(s: System, m: Message)
    requires Inv(false, s) && Enabled(s, SenderReads) && Unreleased(AckedOut(s), s.receiver.inbound, m)
    ensures !s.toSender[0].Pubrec? ==> Unreleased(s.sender.outbound, s.receiver.inbound, m)
    ensures exists o ::
      Unreleased(s.sender.outbound, s.receiver.inbound, o) &&
      m == (if s.toSender[0].Pubrec? then Advanced(o, s.toSender[0].msgid) else o)
  {
    var p, o, r := s.toSender[0], Find(s.sender.outbound, m.msgid), Find(s.receiver.inbound, m.msgid);
    AckedFind(s, m.msgid);
    FindMember(s.sender.outbound, m.msgid);
    assert IdInv(false, o, r, s.toReceiver, s.toSender, m.msgid);
    assert Unreleased(s.sender.outbound, s.receiver.inbound, o.m);
  }

  lemma SenderInOrder(s: System)
    requires Inv(false, s) && Ordered(s) && Enabled(s, SenderReads)
    ensures Ordered(Do(s, false, SenderReads))
  {
    var t, p := Do(s, false, SenderReads), s.toSender[0];
    var out, inb, out' := s.sender.outbound, s.receiver.inbound, AckedOut(s);
    SenderLists(false, s);
    var more := SenderHandles(s.sender, false, p).wire;
    assert t.toReceiver == s.toReceiver + more && t.toSender == s.toSender[1..] && t.receiver == s.receiver;
    assert more == if p.Pubrec? then [Pubrel(p.msgid)] else [];
    forall m | Unreleased(out', inb, m)
      ensures exists o :: Unreleased(out, inb, o) && m == (if p.Pubrec? then Advanced(o, p.msgid) else o)
    {
      AckedUnreleased(s, m);
    }
    RecsAwaited(s);
    hide Inv, Do, AckedOut, Unreleased, SenderHandles, InLine, Has;
    if p.Pubrec? {
      InLineRec(out, inb, out', s.toReceiver, s.toSender, p.msgid);
    } else {
      assert s.toReceiver + more == s.toReceiver;
      InLinePopBack(out, inb, out', s.toReceiver, s.toSender);
    }
    BodiesStay(out, inb, out', p, s.receiver.delivered);
  }

  /** A message whose PUBREC is read for the first time has no stale PUBREL in front of its own. */
  lemma RecsAwaited(s: System)
    requires Inv(false, s) && Enabled(s, SenderReads)
    ensures var p := s.toSender[0];
            p.Pubrec? ==>
              forall o :: Unreleased(s.sender.outbound, s.receiver.inbound, o) && o.msgid == p.msgid && o.next == PubRec
                ==> !Has(s.toReceiver, Rel, p.msgid)
  {
    var id := s.toSender[0].msgid;
    var o, r := Find(s.sender.outbound, id), Find(s.receiver.inbound, id);
    assert IdInv(false, o, r, s.toReceiver, s.toSender, id);
    if s.toSender[0].Pubrec? { RecReadInv(false, o, r, s.toReceiver, s.toSender, id, Pubrel(id)); }
    hide Find, Has;
  }

  lemma BodiesStay(out: seq<Message>, inb: seq<Message>, out': seq<Message>, p: Packet, log: seq<Entry>)
    requires IsAck(p) && LogBefore(out, inb, log)
    requires forall m :: Unreleased(out', inb, m) ==>
      exists o :: Unreleased(out, inb, o) && m == (if p.Pubrec? then Advanced(o, p.msgid) else o)
    ensures LogBefore(out', inb, log)
  {
    hide Unreleased;
    forall e, m | e in log && e.qos == 2 && Unreleased(out', inb, m) ensures Num(e.content) < Num(m.body) {
      var o :| Unreleased(out, inb, o) && m == (if p.Pubrec? then Advanced(o, p.msgid) else o);
    }
  }

  // ---- the receiver

  /** What still waits after a packet is read waited before, and the packet was not its PUBREL. */
  lemma ReadUnreleased(s: System, inb': seq<Message>, m: Message)
    requires Inv(false, s) && Enabled(s, ReceiverReads) && inb' == Do(s, false, ReceiverReads).receiver.inbound
    requires Unreleased(s.sender.outbound, inb', m)
    ensures Unreleased(s.sender.outbound, s.receiver.inbound, m)
    ensures m.next == PubComp ==> !Is(s.toReceiver[0], Rel, m.msgid)
  {
    var p := s.toReceiver[0];
    ReceivedFind(false, s.receiver, p, m.msgid);
    var o, r := Find(s.sender.outbound, m.msgid), Find(s.receiver.inbound, m.msgid);
    assert IdInv(false, o, r, s.toReceiver, s.toSender, m.msgid);
    hide Find;
    if Is(p, Pub, m.msgid) { assert Has(s.toReceiver, Pub, m.msgid); }
  }

  lemma InLineRead(out: seq<Message>, inb: seq<Message>, inb': seq<Message>, toR: seq<Packet>, toS: seq<Packet>,
                   back: seq<Packet>)
    requires InLine(out, inb, toR, toS) && toR != [] && (toR[0].Publish? || toR[0].Pubrel?)
    requires forall m :: Unreleased(out, inb', m) ==>
      Unreleased(out, inb, m) && (m.next == PubComp ==> !Is(toR[0], Rel, m.msgid))
    requires if Is(toR[0], Pub, toR[0].msgid) then back == [Pubrec(toR[0].msgid, 0)] else forall i :: !Has(back, Rec, i)
    ensures InLine(out, inb', toR[1..], toS + back)
  {
    var id := toR[0].msgid;
    hide Unreleased, Moving, Leads, Has;
    forall m | Unreleased(out, inb', m) ensures Moving(m, toR[1..], toS + back) {
      MovingRead(m, toR, toS, back);
    }
    forall m, n | Unreleased(out, inb', m) && Unreleased(out, inb', n) && Num(m.body) < Num(n.body)
      ensures Leads(m, n, toR[1..], toS + back)
    {
      if Is(toR[0], Pub, id) { LeadsPub(m, n, toR, toS, id); } else { LeadsPop(m, n, toR, toS, back); }
    }
  }

  lemma MovingRead(m: Message, toR: seq<Packet>, toS: seq<Packet>, back: seq<Packet>)
    requires Moving(m, toR, toS) && toR != [] && (m.next == PubComp ==> !Is(toR[0], Rel, m.msgid))
    requires toR[0].Publish? || toR[0].Pubrel?
    requires Is(toR[0], Pub, toR[0].msgid) ==> back == [Pubrec(toR[0].msgid, 0)]
    ensures Moving(m, toR[1..], toS + back)
  {
    Pop(toR, m.msgid);
    if m.next != PubComp {
      if Has(toS, Rec, m.msgid) {
        HasMore(toS, back, Rec, m.msgid);
      } else if Is(toR[0], Pub, m.msgid) {
        assert Is(back[0], Rec, m.msgid);
        HasAfter(toS, back, Rec, m.msgid);
      }
    }
  }

  lemma ReceivedLog(r: Session, p: Packet)
    requires p.Publish? || p.Pubrel?
    ensures ReceiverHandles(r, false, p).s.delivered ==
      if p.Publish? then
        if p.qos == 0 || p.qos == 1 then r.delivered + [Entry(p.content, p.qos, p.retain)] else r.delivered
      else
        var f := Find(r.inbound, p.msgid);
        if f.Some? && f.m.qos == 2 && f.m.next == PubRel then r.delivered + [Entry(f.m.body, 2, f.m.retain)]
        else r.delivered
  {
  }

  lemma ReceivedWire(r: Session, p: Packet)
    requires p.Publish? || p.Pubrel?
    ensures var back := ReceiverHandles(r, false, p).wire;
            if Is(p, Pub, p.msgid) then back == [Pubrec(p.msgid, 0)] else forall i :: !Has(back, Rec, i)
  {
  }

  /** The message that a PUBREL releases. */
  lemma ReleasedIsListed(s: System) returns (o: Message)
    requires Inv(false, s) && Enabled(s, ReceiverReads) && s.toReceiver[0].Pubrel?
    requires Find(s.receiver.inbound, s.toReceiver[0].msgid).Some?
    ensures Unreleased(s.sender.outbound, s.receiver.inbound, o) && o.next == PubComp
    ensures o.msgid == s.toReceiver[0].msgid && Find(s.receiver.inbound, o.msgid).m.body == o.body
  {
    var id := s.toReceiver[0].msgid;
    var f, r := Find(s.sender.outbound, id), Find(s.receiver.inbound, id);
    assert IdInv(false, f, r, s.toReceiver, s.toSender, id);
    RelReadInv(false, f, r, s.toReceiver, s.toSender, id, Pubcomp(id));
    FindMember(s.sender.outbound, id);
    o := f.m;
    assert OutboundForm(o);
  }

  /** It leads all that wait, and is newer than all that was delivered. */
  lemma ReleasedInOrder(out: seq<Message>, inb: seq<Message>, inb': seq<Message>, toR: seq<Packet>, toS: seq<Packet>,
                        log: seq<Entry>, o: Message, e: Entry)
    requires Numbered(out) && LogRises(log) && LogBefore(out, inb, log) && InLine(out, inb, toR, toS) && toR != []
    requires Unreleased(out, inb, o) && o.next == PubComp && Is(toR[0], Rel, o.msgid) && e.content == o.body
    requires forall m :: Unreleased(out, inb', m) ==>
      Unreleased(out, inb, m) && (m.next == PubComp ==> !Is(toR[0], Rel, m.msgid))
    ensures LogRises(log + [e]) && LogBefore(out, inb', log + [e])
  {
    UnreleasedIsListed(out, inb);
    hide Unreleased, Moving;
    forall m | Unreleased(out, inb', m) ensures Num(e.content) < Num(m.body) {
      if Num(m.body) < Num(o.body) {
        assert Leads(m, o, toR, toS);
        BehindPop(toR, Rel, m.msgid, o.msgid);
      }
    }
    LogRisesAppend(log, e);
  }

  lemma OthersInOrder(out: seq<Message>, inb: seq<Message>, inb': seq<Message>, log: seq<Entry>, e: Entry)
    requires LogRises(log) && LogBefore(out, inb, log) && e.qos != 2
    requires forall m :: Unreleased(out, inb', m) ==> Unreleased(out, inb, m)
    ensures LogRises(log + [e]) && LogBefore(out, inb', log + [e]) && LogBefore(out, inb', log)
  {
    hide Unreleased;
    LogRisesAppend(log, e);
  }

  lemma ReadInOrder(s: System)
    requires Inv(false, s) && Ordered(s) && Enabled(s, ReceiverReads)
    ensures Ordered(Do(s, false, ReceiverReads))
  {
    var out, inb, toR, log := s.sender.outbound, s.receiver.inbound, s.toReceiver, s.receiver.delivered;
    var t := Do(s, false, ReceiverReads);
    var inb', p, back := t.receiver.inbound, toR[0], ReceiverHandles(s.receiver, false, toR[0]).wire;
    ReceivedLog(s.receiver, p);
    ReceivedWire(s.receiver, p);
    OutNumbered(out, s.published);
    assert t.sender.outbound == out && t.toReceiver == toR[1..] && t.toSender == s.toSender + back;
    assert t.receiver.delivered == ReceiverHandles(s.receiver, false, p).s.delivered;
    hide Do, Unreleased, ReceiverHandles, InLine, LogRises, LogBefore, Numbered, Has;
    forall m | Unreleased(out, inb', m)
      ensures Unreleased(out, inb, m) && (m.next == PubComp ==> !Is(p, Rel, m.msgid))
    {
      ReadUnreleased(s, inb', m);
    }
    InLineRead(out, inb, inb', toR, s.toSender, back);
    OthersInOrder(out, inb, inb', log, Entry(NoContent, 0, false));
    if t.receiver.delivered != log {
      if p.Pubrel? {
        var o := ReleasedIsListed(s);
        var m := Find(inb, p.msgid).m;
        ReleasedInOrder(out, inb, inb', toR, s.toSender, log, o, Entry(m.body, 2, m.retain));
      } else {
        OthersInOrder(out, inb, inb', log, Entry(p.content, p.qos, p.retain));
      }
    }
  }

  lemma ConnectedStep(s: System, step: Step)
    requires Inv(false, s) && Ordered(s) && Enabled(s, step) && !Empties(step)
    ensures Ordered(Do(s, false, step))
  {
    hide Inv, Ordered, Do, Enabled;
    match step
    case PublishCall(_, _, _, _) => PublishInOrder(s, step);
    case ReceiverReads => ReadInOrder(s);
    case SenderReads => SenderInOrder(s);
    case RetryPass(due) => RetryInOrder(s, due);
    case _ =>
  }

  // ---- drops and restarts, made good by a full retry

  lemma StagesOf(out: seq<Message>, inb: seq<Message>, toR: seq<Packet>, toS: seq<Packet>)
    requires InLine(out, inb, toR, toS)
    ensures StagesInLine(out, inb)
  {
    hide Unreleased, Moving, Behind, Has;
    forall m, n | Unreleased(out, inb, m) && Unreleased(out, inb, n) && Num(m.body) < Num(n.body)
      ensures n.next == PubComp ==> m.next == PubComp
    {
      assert Leads(m, n, toR, toS);
    }
  }

  lemma SentAgain(out: seq<Message>, inb: seq<Message>, ch: seq<Packet>, m: Message) returns (j: nat)
    requires Resending(out, ch) && Unreleased(out, inb, m)
    ensures j < |out| && out[j] == m && Is(ch[j], if m.next == PubComp then Rel else Pub, m.msgid)
  {
    j := IndexOf(out, m.msgid);
    assert Resend(out[j]) == [ch[j]];
  }

  lemma SentAgainOf(out: seq<Message>, inb: seq<Message>, ch: seq<Packet>, k: nat, n: Message, t: Tag)
    requires Resending(out, ch) && DistinctIds(out) && Unreleased(out, inb, n) && k < |ch| && Is(ch[k], t, n.msgid)
    requires t == Pub || t == Rel
    ensures out[k] == n
  {
    assert Resend(out[k]) == [ch[k]] && out[k].msgid == n.msgid;
    assert IndexOf(out, n.msgid) == k;
  }

  lemma InLineAgain(out: seq<Message>, inb: seq<Message>, ch: seq<Packet>)
    requires Rising(out) && DistinctIds(out) && Resending(out, ch) && StagesInLine(out, inb)
    ensures InLine(out, inb, ch, [])
  {
    SameLength(out, ch);
    hide Unreleased, Resending, DistinctIds;
    forall m | Unreleased(out, inb, m) ensures Moving(m, ch, []) {
      var j := SentAgain(out, inb, ch, m);
    }
    forall m, n | Unreleased(out, inb, m) && Unreleased(out, inb, n) && Num(m.body) < Num(n.body)
      ensures Leads(m, n, ch, [])
    {
      var t := if m.next == PubComp then Rel else Pub;
      forall k | 0 <= k < |ch| && Is(ch[k], t, n.msgid) ensures Has(ch[..k], t, m.msgid) {
        var j := SentAgain(out, inb, ch, m);
        SentAgainOf(out, inb, ch, k, n, t);
        assert j < k;
        assert Is(ch[..k][j], t, m.msgid);
      }
    }
  }

  lemma RetriedInOrder(s: System, due: set<nat>)
    requires Inv(false, s) && Rising(s.sender.outbound) && Logged(s)
    requires StagesInLine(s.sender.outbound, s.receiver.inbound)
    requires s.toReceiver == [] && s.toSender == [] && AllDue(s.sender.outbound, due)
    ensures Ordered(Do(s, false, RetryPass(due)))
  {
    var out := s.sender.outbound;
    Retries(false, s, due);
    assert forall m :: m in out ==> OutboundForm(m);
    assert s.toReceiver + Resends(out, due, 0) == Resends(out, due, 0);
    hide Do, Unreleased, Resends, LogRises, LogBefore, Rising, InLine, StagesInLine;
    AllResent(out, due, 0);
    assert out[0..] == out;
    InLineAgain(out, s.receiver.inbound, Resends(out, due, 0));
  }

  /** What a drop or restart keeps. */
  ghost predicate Kept(s: System) {
    Rising(s.sender.outbound) && Logged(s) && StagesInLine(s.sender.outbound, s.receiver.inbound)
  }

  lemma EmptiedInOrder(s: System, step: Step)
    requires Inv(false, s) && Kept(s) && Enabled(s, step) && Empties(step) && OrderTold(s, step)
    ensures Kept(Do(s, false, step)) && Do(s, false, step).toReceiver == [] && Do(s, false, step).toSender == []
  {
    match step
    case Drop =>
    case SenderRestarts(keys) => SenderBack(false, s, keys);
    case ReceiverRestarts(keys) => ReceiverBack(s, keys);
  }

  lemma ReceiverBack(s: System, keys: seq<Key>)
    requires Inv(false, s) && Kept(s) && Enabled(s, ReceiverRestarts(keys))
    ensures Kept(Do(s, false, ReceiverRestarts(keys)))
  {
    var r := s.receiver;
    var back := RestorePackets(r.store, false, keys).inbound;
    RestoreMirrored(false, r.outbound, r.inbound, r.store, keys);
    InboundBack(false, r.inbound, back);
    UnreleasedBack(s.sender.outbound, r.inbound, back);
    hide Find, RestorePackets, Mirror, Rising, LogRises, Unreleased, Inv;
  }

  lemma UnreleasedBack(out: seq<Message>, inb: seq<Message>, back: seq<Message>)
    requires forall i :: Find(back, i) == if Find(inb, i).Some? then Some(Strip(false, Find(inb, i).m)) else None
    ensures forall m :: Unreleased(out, back, m) ==> Unreleased(out, inb, m)
  {
    hide Find;
  }

  // ---- over whole runs

  lemma StepInOrder(s: System, step: Step)
    requires Inv(false, s) && Kept(s) && Enabled(s, step) && OrderTold(s, step)
    requires Flowing(s) || Empties(step) ||
      (s.toReceiver == [] && s.toSender == [] && step.RetryPass? && AllDue(s.sender.outbound, step.due))
    ensures var t := Do(s, false, step);
            Kept(t) && if Empties(step) then t.toReceiver == [] && t.toSender == [] else Flowing(t)
  {
    StaysRising(false, s, step);
    hide Inv, Rising, Logged, InLine, Do, Enabled, OrderTold, StagesInLine;
    if Empties(step) {
      EmptiedInOrder(s, step);
    } else {
      var t := Do(s, false, step);
      if Flowing(s) { ConnectedStep(s, step); } else { RetriedInOrder(s, step.due); }
      StagesOf(t.sender.outbound, t.receiver.inbound, t.toReceiver, t.toSender);
    }
  }

  lemma {:induction false} RunInOrder(states: seq<System>, steps: seq<Step>, k: nat)
    requires Run(false, states, steps) && Reconnects(states, steps) && k < |states|
    ensures Kept(states[k])
    ensures if k > 0 && Empties(steps[k - 1]) then states[k].toReceiver == [] && states[k].toSender == []
            else Flowing(states[k])
  {
    if k > 0 {
      var j := k - 1;
      RunInOrder(states, steps, j);
      RunInv(false, states, steps, j);
      assert states[j + 1] == Do(states[j], false, steps[j]);
      hide Inv, Kept, Flowing, Do, Enabled, OrderTold, Empties;
      StepInOrder(states[j], steps[j]);
    }
  }

  /** In version 3.1.1, over every run in which each drop or restart is followed by a full retry first, with live
      retries, drops and restarts of either side at will, the QoS 2 messages are delivered in the order of their publish
      calls. */
  lemma InOrder(states: seq<System>, steps: seq<Step>, k: nat)
    requires Run(false, states, steps) && Reconnects(states, steps) && k < |states|
    ensures LogRises(states[k].receiver.delivered)
  {
    RunInOrder(states, steps, k);
  }
}
