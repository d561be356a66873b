/** Exactly when QoS 2 messages go on arriving in the order of their publish calls while a connection holds (section 4.6
    of MQTT 3.1.1 and MQTT 5.0), for both versions: from every other state that a run reaches some continuation delivers
    out of order. */
module ExactOrder {
  import opened MsgId
  import opened Session
  import opened Recovery
  import opened Delivery
  import opened Ordering
  import OrderAtRelease

  ghost predicate Connected(steps: seq<Step>) {
    forall x :: x in steps ==> !Empties(x)
  }

  /** However the run goes on while the connection holds, the QoS 2 messages are delivered in order. */
  ghost predicate OrderSafe(v5: bool, s: System) {
    forall steps, t :: Goes(v5, s, steps, t) && Connected(steps) ==> LogRises(t.receiver.delivered)
  }

  /** So far they were, nothing undelivered is older than something delivered, and what is undelivered is under way in
      line. */
  ghost predicate Lined(v5: bool, s: System) {
    if v5 then Ordering.Ordered(s) else OrderAtRelease.Ordered(s)
  }

  lemma LinedStep(v5: bool, s: System, step: Step)
    requires Inv(v5, s) && Lined(v5, s) && Enabled(s, step) && !Empties(step)
    ensures Lined(v5, Do(s, v5, step)) && LogRises(s.receiver.delivered)
  {
    hide Inv, Enabled, Do, Empties, LogRises, LogBefore, OrderAtRelease.LogBefore, Flowing, OrderAtRelease.Flowing;
    if v5 { Ordering.ConnectedStep(s, step); } else { OrderAtRelease.ConnectedStep(s, step); }
  }

  lemma LinedRises(v5: bool, s: System)
    requires Lined(v5, s)
    ensures LogRises(s.receiver.delivered)
  {
  }

  lemma {:induction false} StaysLined(v5: bool, s: System, steps: seq<Step>, t: System)
    requires Inv(v5, s) && Lined(v5, s) && Goes(v5, s, steps, t) && Connected(steps)
    ensures Lined(v5, t)
    decreases |steps|
  {
    if steps != [] {
      assert steps[0] in steps && forall x :: x in steps[1..] ==> x in steps;
      hide Inv, Lined, Do, Enabled, Empties;
      StepKeepsInv(v5, s, steps[0]);
      LinedStep(v5, s, steps[0]);
      StaysLined(v5, Do(s, v5, steps[0]), steps[1..], t);
    }
  }

  // ---- single steps

  lemma NoSteps(v5: bool, s: System)
    ensures Goes(v5, s, [], s) && Connected([])
  {
  }

  lemma OneStep(v5: bool, s: System, step: Step, steps: seq<Step>, t: System)
    requires Enabled(s, step) && !Empties(step) && Goes(v5, Do(s, v5, step), steps, t) && Connected(steps)
    ensures Goes(v5, s, [step] + steps, t) && Connected([step] + steps)
  {
    hide Do, Enabled, Empties;
    assert ([step] + steps)[1..] == steps;
  }

  lemma BothConnected(a: seq<Step>, b: seq<Step>)
    requires Connected(a) && Connected(b)
    ensures Connected(a + b)
  {
  }

  lemma ReadEnabled(v5: bool, s: System)
    requires Inv(v5, s) && s.toReceiver != []
    ensures Enabled(s, ReceiverReads)
    ensures var t := Do(s, v5, ReceiverReads);
            t.sender == s.sender && t.published == s.published && t.toReceiver == s.toReceiver[1..] &&
            s.receiver.delivered <= t.receiver.delivered
  {
    assert s.toReceiver[0] in s.toReceiver;
    hide Inv;
  }

  /** What a sender that reads an acknowledgement does to its list and to what is under way. */
  lemma Takes(v5: bool, s: System)
    requires Inv(v5, s) && Enabled(s, SenderReads)
    ensures var t, p := Do(s, v5, SenderReads), s.toSender[0];
            && t.sender.outbound == AckedOut(s) && t.receiver == s.receiver && t.sender.msgID == s.sender.msgID
            && t.published == s.published
            && t.toReceiver == s.toReceiver + (if p.Pubrec? then [Pubrel(p.msgid)] else [])
            && t.toSender == s.toSender[1..]
  {
    SenderLists(v5, s);
    hide Inv, AckedOut;
  }

  // ---- a message that nothing takes further

  /** m is on record and has not been delivered. */
  ghost predicate Open(v5: bool, s: System, m: Message) {
    if v5 then Waits(s.sender.outbound, s.receiver.inbound, m)
    else OrderAtRelease.Unreleased(s.sender.outbound, s.receiver.inbound, m)
  }

  /** ... and what is under way will not get it delivered. */
  ghost predicate Unsent(v5: bool, s: System, m: Message) {
    && Open(v5, s, m) && !Has(s.toReceiver, Pub, m.msgid)
    && (!v5 ==> !Has(s.toSender, Rec, m.msgid) && (m.next == PubComp ==> !Has(s.toReceiver, Rel, m.msgid)))
  }

  ghost predicate Keeps(v5: bool, s: System, keep: Found) {
    keep.Some? ==> Unsent(v5, s, keep.m)
  }

  lemma OpenIs(v5: bool, s: System, m: Message)
    requires Inv(v5, s) && Open(v5, s, m)
    ensures m in s.sender.outbound && m.qos == 2 && Find(s.sender.outbound, m.msgid) == Some(m)
    ensures m.next == PubRec || (!v5 && m.next == PubComp)
  {
  }

  lemma StillWaits(s: System, m: Message)
    requires Inv(true, s) && Enabled(s, ReceiverReads) && !Is(s.toReceiver[0], Pub, m.msgid)
    requires Waits(s.sender.outbound, s.receiver.inbound, m)
    ensures Waits(s.sender.outbound, Do(s, true, ReceiverReads).receiver.inbound, m)
  {
    ReceivedFind(true, s.receiver, s.toReceiver[0], m.msgid);
    hide Find;
  }

  lemma UnsentRead5(s: System, m: Message)
    requires Inv(true, s) && Enabled(s, ReceiverReads) && Unsent(true, s, m)
    ensures Unsent(true, Do(s, true, ReceiverReads), m)
  {
    hide Inv, Waits, Do, Has;
    Pop(s.toReceiver, m.msgid);
    StillWaits(s, m);
    ReadEnabled(true, s);
  }

  lemma UnsentRead3(s: System, m: Message)
    requires Inv(false, s) && Enabled(s, ReceiverReads) && Unsent(false, s, m)
    ensures Unsent(false, Do(s, false, ReceiverReads), m)
  {
    var p, t := s.toReceiver[0], Do(s, false, ReceiverReads);
    var back := ReceiverHandles(s.receiver, false, p).wire;
    assert t.sender == s.sender && t.toReceiver == s.toReceiver[1..] && t.toSender == s.toSender + back;
    Pop(s.toReceiver, m.msgid);
    OrderAtRelease.ReceivedWire(s.receiver, p);
    assert !Has(t.toSender, Rec, m.msgid) by { NotAnswered(s.toSender, back, p, m.msgid); }
    ReceivedFind(false, s.receiver, p, m.msgid);
    assert t.receiver == ReceiverHandles(s.receiver, false, p).s;
    hide Inv, Do, Has, Find, ReceiverHandles, NoneBehind, PubsAre;
  }

  lemma HasConcat(a: seq<Packet>, b: seq<Packet>, t: Tag, id: int)
    requires Has(a + b, t, id)
    ensures Has(a, t, id) || Has(b, t, id)
  {
    var k :| 0 <= k < |a + b| && Is((a + b)[k], t, id);
    if k < |a| { assert Is(a[k], t, id); } else { assert Is(b[k - |a|], t, id); }
  }

  lemma NotAnswered(ch: seq<Packet>, back: seq<Packet>, p: Packet, id: int)
    requires (p.Publish? || p.Pubrel?) && !Has(ch, Rec, id) && !Is(p, Pub, id)
    requires if Is(p, Pub, p.msgid) then back == [Pubrec(p.msgid, 0)] else forall i :: !Has(back, Rec, i)
    ensures !Has(ch + back, Rec, id)
  {
    if Has(ch + back, Rec, id) { HasConcat(ch, back, Rec, id); }
  }

  lemma TakenWaits(s: System, m: Message)
    requires Inv(true, s) && Enabled(s, SenderReads) && Waits(s.sender.outbound, s.receiver.inbound, m)
    ensures Waits(AckedOut(s), s.receiver.inbound, m)
  {
    NoRecYet(s, m);
    assert Is(s.toSender[0], Rec, m.msgid) ==> Has(s.toSender, Rec, m.msgid);
    hide Find, Has, AckedOut, Inv;
    TakenFind(s, m);
  }

  lemma TakenFind(s: System, m: Message)
    requires Inv(true, s) && Enabled(s, SenderReads) && !Is(s.toSender[0], Rec, m.msgid)
    requires Find(s.sender.outbound, m.msgid) == Some(m) && m.qos == 2 && m.next == PubRec
    ensures Find(AckedOut(s), m.msgid) == Some(m)
  {
    AckedFind(s, m.msgid);
    hide Find, AckedOut, IdInv, Mirror, Accounts;
  }

  lemma NoRecYet(s: System, m: Message)
    requires Inv(true, s) && Waits(s.sender.outbound, s.receiver.inbound, m)
    ensures !Has(s.toSender, Rec, m.msgid)
  {
    assert IdInv(true, Find(s.sender.outbound, m.msgid), Find(s.receiver.inbound, m.msgid), s.toReceiver, s.toSender,
                 m.msgid);
    hide Find, Has, NoneBehind, PubsAre;
  }

  lemma UnsentTaken5(s: System, m: Message)
    requires Inv(true, s) && Enabled(s, SenderReads) && Unsent(true, s, m)
    ensures Unsent(true, Do(s, true, SenderReads), m)
  {
    var p := s.toSender[0];
    assert IsAck(p);
    hide Inv, Waits, Do, AckedOut, Enabled, Has, NoneBehind, PubsAre;
    Takes(true, s);
    TakenWaits(s, m);
    Push(s.toReceiver, Pubrel(p.msgid), m.msgid);
  }

  lemma NoneOf(ch: seq<Packet>, t: Tag, id: int)
    requires ch != [] && !Has(ch, t, id)
    ensures !Is(ch[0], t, id)
  {
  }

  lemma StaysFound(s: System, m: Message)
    requires ListsInv(s) && Enabled(s, SenderReads) && Find(s.sender.outbound, m.msgid) == Some(m) && m.qos == 2
    requires !Is(s.toSender[0], Rec, m.msgid) && (m.next == PubComp ==> !Is(s.toSender[0], Comp, m.msgid))
    ensures Find(AckedOut(s), m.msgid) == Some(m)
  {
    AckedFind(s, m.msgid);
    hide Find, AckedOut, OutboundInv, InboundInv;
  }

  lemma StaysOpen3(s: System, m: Message)
    requires Inv(false, s) && Enabled(s, SenderReads) && Unsent(false, s, m)
    ensures Find(AckedOut(s), m.msgid) == Some(m)
    ensures !Is(s.toSender[0], Rec, m.msgid)
  {
    OpenIs(false, s, m);
    if m.next == PubComp {
      NoCompYet(s, m);
      NoneOf(s.toSender, Comp, m.msgid);
    }
    assert ListsInv(s);
    hide Inv, ListsInv, AckedOut, Find, Open, Has;
    NoneOf(s.toSender, Rec, m.msgid);
    StaysFound(s, m);
  }

  lemma NothingNew(toR: seq<Packet>, toS: seq<Packet>, m: Message)
    requires toS != [] && IsAck(toS[0]) && !Has(toR, Pub, m.msgid) && !Has(toS, Rec, m.msgid)
    ensures var more := if toS[0].Pubrec? then [Pubrel(toS[0].msgid)] else [];
            !Has(toR + more, Pub, m.msgid) && !Has(toS[1..], Rec, m.msgid)
            && (!Has(toR, Rel, m.msgid) ==> !Has(toR + more, Rel, m.msgid))
  {
    Pop(toS, m.msgid);
    Push(toR, Pubrel(toS[0].msgid), m.msgid);
    assert toR + [] == toR;
    hide Has, NoneBehind, PubsAre;
  }

  lemma UnsentTaken3(s: System, m: Message)
    requires Inv(false, s) && Enabled(s, SenderReads) && Unsent(false, s, m)
    ensures Unsent(false, Do(s, false, SenderReads), m)
  {
    assert IsAck(s.toSender[0]);
    hide Inv, Do, AckedOut, Has, Enabled, Find;
    StaysOpen3(s, m);
    Takes(false, s);
    NothingNew(s.toReceiver, s.toSender, m);
  }

  lemma NoCompYet(s: System, m: Message)
    requires Inv(false, s) && Open(false, s, m) && m.next == PubComp
    ensures !Has(s.toSender, Comp, m.msgid)
  {
    assert IdInv(false, Find(s.sender.outbound, m.msgid), Find(s.receiver.inbound, m.msgid), s.toReceiver, s.toSender,
                 m.msgid);
    hide Find, Has, NoneBehind, PubsAre;
  }

  lemma KeptRead(v5: bool, s: System, keep: Found)
    requires Inv(v5, s) && Enabled(s, ReceiverReads) && Keeps(v5, s, keep)
    ensures Keeps(v5, Do(s, v5, ReceiverReads), keep)
  {
    hide Inv, Unsent, Do, Enabled;
    if keep.Some? { if v5 { UnsentRead5(s, keep.m); } else { UnsentRead3(s, keep.m); } }
  }

  lemma KeptTaken(v5: bool, s: System, keep: Found)
    requires Inv(v5, s) && Enabled(s, SenderReads) && Keeps(v5, s, keep)
    ensures Keeps(v5, Do(s, v5, SenderReads), keep)
  {
    hide Inv, Unsent, Do, Enabled;
    if keep.Some? { if v5 { UnsentTaken5(s, keep.m); } else { UnsentTaken3(s, keep.m); } }
  }

  // ---- everything under way is read

  /** Each message of the second list is one of the first, further on or not. */
  ghost predicate Shrinks(out: seq<Message>, out': seq<Message>) {
    forall y :: y in out' ==> exists z :: z in out && Same(z, y)
  }

  predicate Same(a: Message, b: Message) {
    a.msgid == b.msgid && a.qos == b.qos && a.body == b.body
  }

  lemma ShrinksSame(out: seq<Message>)
    ensures Shrinks(out, out)
  {
    assert forall y :: y in out ==> Same(y, y);
  }

  lemma ShrinksThen(a: seq<Message>, b: seq<Message>, c: seq<Message>)
    requires Shrinks(a, b) && Shrinks(b, c)
    ensures Shrinks(a, c)
  {
    forall y | y in c ensures exists x :: x in a && Same(x, y) {
      var z :| z in b && Same(z, y);
      var x :| x in a && Same(x, z);
    }
  }

  lemma TakenShrinks(v5: bool, s: System)
    requires Inv(v5, s) && Enabled(s, SenderReads)
    ensures Shrinks(s.sender.outbound, AckedOut(s))
  {
    var out := s.sender.outbound;
    AckedForm(s);
    forall y | y in AckedOut(s) ensures exists z :: z in out && Same(z, y) {
      AckedFind(s, y.msgid);
      FindMember(AckedOut(s), y.msgid);
      FindMember(out, y.msgid);
      assert Same(Find(out, y.msgid).m, y);
    }
  }

  /** How many packets can still follow from those under way. */
  function Weight(ch: seq<Packet>): nat {
    if ch == [] then 0
    else (match ch[0]
          case Publish(_, _, _, _, _) => 4
          case Pubrec(_, _) => 3
          case Pubrel(_) => 2
          case _ => 1) + Weight(ch[1..])
  }

  lemma {:induction false} WeightConcat(a: seq<Packet>, b: seq<Packet>)
    ensures Weight(a + b) == Weight(a) + Weight(b)
  {
    if a == [] {
      assert a + b == b;
    } else {
      assert (a + b)[1..] == a[1..] + b && (a + b)[0] == a[0];
      WeightConcat(a[1..], b);
    }
  }

  lemma ReadShrinks(v5: bool, s: System)
    requires Enabled(s, ReceiverReads)
    ensures var t := Do(s, v5, ReceiverReads);
            Weight(t.toReceiver) + Weight(t.toSender) < Weight(s.toReceiver) + Weight(s.toSender)
  {
    var wire := ReceiverHandles(s.receiver, v5, s.toReceiver[0]).wire;
    assert wire != [] ==> |wire| == 1 && wire[1..] == [];
    WeightConcat(s.toSender, wire);
  }

  lemma TakeShrinks(v5: bool, s: System)
    requires Inv(v5, s) && s.toSender != []
    ensures Enabled(s, SenderReads)
    ensures var t := Do(s, v5, SenderReads);
            Weight(t.toReceiver) + Weight(t.toSender) < Weight(s.toReceiver) + Weight(s.toSender)
  {
    assert s.toSender[0] in s.toSender;
    hide Inv;
    var wire := SenderHandles(s.sender, v5, s.toSender[0]).wire;
    assert wire != [] ==> |wire| == 1 && wire[1..] == [];
    WeightConcat(s.toReceiver, wire);
  }

  lemma {:induction false} Drained(v5: bool, s: System, keep: Found) returns (steps: seq<Step>, t: System)
    requires Inv(v5, s) && Keeps(v5, s, keep)
    ensures Goes(v5, s, steps, t) && Connected(steps) && Inv(v5, t) && Keeps(v5, t, keep)
    ensures t.toReceiver == [] && t.toSender == [] && t.published == s.published
    ensures Shrinks(s.sender.outbound, t.sender.outbound)
    decreases Weight(s.toReceiver) + Weight(s.toSender)
  {
    hide Inv, Keeps, Do, Goes, Connected, Enabled, Shrinks, AckedOut;
    if s.toReceiver == [] && s.toSender == [] {
      NoSteps(v5, s);
      ShrinksSame(s.sender.outbound);
      steps, t := [], s;
    } else {
      var step := if s.toReceiver != [] then ReceiverReads else SenderReads;
      if s.toReceiver != [] {
        ReadEnabled(v5, s);
        KeptRead(v5, s, keep);
        ReadShrinks(v5, s);
        ShrinksSame(s.sender.outbound);
      } else {
        TakeShrinks(v5, s);
        KeptTaken(v5, s, keep);
        Takes(v5, s);
        TakenShrinks(v5, s);
      }
      StepKeepsInv(v5, s, step);
      var r := Do(s, v5, step);
      steps, t := Drained(v5, r, keep);
      ShrinksThen(s.sender.outbound, r.sender.outbound, t.sender.outbound);
      OneStep(v5, s, step, steps, t);
      steps := [step] + steps;
    }
  }

  // ---- one message is brought to its end

  lemma {:induction false} ResendsOnly(ms: seq<Message>, j: nat, k: nat)
    requires j < |ms| && k <= |ms|
    ensures Resends(ms, {j}, k) == if k <= j then Resend(ms[j]) else []
    decreases |ms| - k
  {
    if k < |ms| { ResendsOnly(ms, j, k + 1); }
  }

  /** x is on record, and its packet is all that is under way. */
  ghost predicate Alone(s: System, x: Message) {
    x in s.sender.outbound && OutboundForm(x) && s.toReceiver == Resend(x) && s.toSender == []
  }

  lemma ListedForm(v5: bool, s: System, x: Message)
    requires Inv(v5, s) && x in s.sender.outbound
    ensures OutboundForm(x)
  {
  }

  lemma ResendOther(x: Message, id: int, t: Tag)
    requires OutboundForm(x) && x.msgid != id
    ensures !Has(Resend(x), t, id)
  {
  }

  /** Nothing but x's packet is under way: whatever else was stuck is stuck. */
  lemma KeptAlone(v5: bool, s: System, t: System, keep: Found, x: Message)
    requires Keeps(v5, s, keep) && s.toSender == t.toSender == []
    requires t.sender.outbound == s.sender.outbound && t.receiver == s.receiver && t.toReceiver == Resend(x)
    requires OutboundForm(x) && (keep.Some? ==> x.msgid != keep.m.msgid)
    ensures Keeps(v5, t, keep)
  {
    if keep.Some? {
      ResendOther(x, keep.m.msgid, Pub);
      ResendOther(x, keep.m.msgid, Rel);
    }
    hide OutboundForm, Resend, Waits, OrderAtRelease.Unreleased;
  }

  lemma ResentAlone(v5: bool, s: System, keep: Found, x: Message) returns (step: Step)
    requires Inv(v5, s) && Keeps(v5, s, keep) && s.toReceiver == [] && s.toSender == []
    requires x in s.sender.outbound && (keep.Some? ==> x.msgid != keep.m.msgid)
    ensures Enabled(s, step) && !Empties(step)
    ensures var t := Do(s, v5, step);
            && Keeps(v5, t, keep) && Alone(t, x) && t.sender.msgID == s.sender.msgID
            && t.sender.outbound == s.sender.outbound && t.published == s.published
  {
    hide Inv, Resends, Keeps, Has, OutboundForm, Resend;
    ListedForm(v5, s, x);
    var j :| 0 <= j < |s.sender.outbound| && s.sender.outbound[j] == x;
    step := RetryPass({j});
    assert Do(s, v5, step).published == s.published;
    hide Do;
    ResendsOnly(s.sender.outbound, j, 0);
    Retries(v5, s, {j});
    assert s.toReceiver + Resend(x) == Resend(x);
    KeptAlone(v5, s, Do(s, v5, step), keep, x);
  }

  lemma FindListed(ms: seq<Message>, id: int)
    ensures Find(ms, id).Some? ==> Find(ms, id).m in ms
  {
  }

  lemma AdvancedForm(x: Message)
    requires OutboundForm(x)
    ensures var y := x.(next := PubComp);
            x.qos == 2 && x.next == PubRec ==> OutboundForm(y) && Resend(y) == [Pubrel(x.msgid)] && Answer(x).Pubrec?
  {
  }

  lemma AnswerFind(v5: bool, r: System, x: Message)
    requires Inv(v5, r) && x in r.sender.outbound && OutboundForm(x)
    requires r.toSender == [Answer(x)] && Enabled(r, SenderReads)
    ensures Find(AckedOut(r), x.msgid) == if x.qos == 2 && x.next == PubRec then Some(x.(next := PubComp)) else None
  {
    FindMember(r.sender.outbound, x.msgid);
    AckedFind(r, x.msgid);
    hide Find, AckedOut, IdInv, Mirror, Accounts;
  }

  lemma AnswerTakenOf(v5: bool, r: System, x: Message)
    requires Inv(v5, r) && x in r.sender.outbound && OutboundForm(x)
    requires r.toReceiver == [] && r.toSender == [Answer(x)]
    ensures Enabled(r, SenderReads)
    ensures var t := Do(r, v5, SenderReads);
            t.sender.msgID == r.sender.msgID &&
            if x.qos == 2 && x.next == PubRec then Alone(t, x.(next := PubComp))
            else Find(t.sender.outbound, x.msgid) == None
  {
    assert Enabled(r, SenderReads);
    AnswerFind(v5, r, x);
    AdvancedForm(x);
    assert r.toReceiver + [Pubrel(x.msgid)] == [Pubrel(x.msgid)];
    hide Inv, Find, AckedOut, Do, Enabled, OutboundForm, Resend;
    Takes(v5, r);
    FindListed(AckedOut(r), x.msgid);
  }

  /** The packet is read and answered, and the answer taken: x is gone, or waits for one more such exchange. */
  lemma Exchanged(v5: bool, s: System, keep: Found, x: Message) returns (t: System, y: Message)
    requires Inv(v5, s) && Keeps(v5, s, keep) && Alone(s, x)
    ensures Goes(v5, s, [ReceiverReads, SenderReads], t) && Inv(v5, t) && Keeps(v5, t, keep)
    ensures t.sender.msgID == s.sender.msgID && t.published == s.published
    ensures Shrinks(s.sender.outbound, t.sender.outbound)
    ensures if x.qos == 2 && x.next == PubRec then y == x.(next := PubComp) && Alone(t, y)
            else Find(t.sender.outbound, x.msgid) == None
  {
    var r := OldestAnswered(v5, s, x);
    hide Inv, Keeps, Do, Goes, Answer, Enabled, Shrinks, AckedOut;
    KeptRead(v5, s, keep);
    AnswerTakenOf(v5, r, x);
    KeptTaken(v5, r, keep);
    Takes(v5, r);
    TakenShrinks(v5, r);
    StepKeepsInv(v5, r, SenderReads);
    GoesTwo(v5, s, ReceiverReads, SenderReads);
    t, y := Do(r, v5, SenderReads), x.(next := PubComp);
  }

  /** The handshake of x is brought to its end. */
  lemma Completed(v5: bool, s: System, keep: Found, x: Message) returns (steps: seq<Step>, t: System)
    requires Inv(v5, s) && Keeps(v5, s, keep) && s.toReceiver == [] && s.toSender == []
    requires x in s.sender.outbound && (keep.Some? ==> x.msgid != keep.m.msgid)
    ensures Goes(v5, s, steps, t) && Connected(steps) && Inv(v5, t) && Keeps(v5, t, keep)
    ensures Find(t.sender.outbound, x.msgid) == None && t.sender.msgID == s.sender.msgID
    ensures t.published == s.published && Shrinks(s.sender.outbound, t.sender.outbound)
  {
    var xs := [ReceiverReads, SenderReads];
    assert Connected(xs);
    hide Inv, Keeps, Goes, Connected, Alone, Do, Enabled, Find, Shrinks;
    var step := ResentAlone(v5, s, keep, x);
    StepKeepsInv(v5, s, step);
    var r := Do(s, v5, step);
    var u, y := Exchanged(v5, r, keep, x);
    if x.qos == 2 && x.next == PubRec {
      var v, z := Exchanged(v5, u, keep, y);
      ShrinksThen(s.sender.outbound, u.sender.outbound, v.sender.outbound);
      GoesThen(v5, r, xs, u, xs, v);
      BothConnected(xs, xs);
      OneStep(v5, s, step, xs + xs, v);
      steps, t := [step] + (xs + xs), v;
    } else {
      OneStep(v5, s, step, xs, u);
      steps, t := [step] + xs, u;
    }
  }

  // ---- an id becomes free

  ghost predicate HasFreeId(s: System) {
    Assign(s.sender.msgID, Ids(s.sender.outbound)) != 0
  }

  lemma FreeAgain(v5: bool, s: System, id: int)
    requires Inv(v5, s) && Find(s.sender.outbound, id) == None && IsId(id) && id != s.sender.msgID
    ensures HasFreeId(s)
  {
    AssignSpec(s.sender.msgID, Ids(s.sender.outbound));
    FindMember(s.sender.outbound, id);
    hide Assign, Find;
  }

  /** Of three ids one is neither m's nor the last one assigned. */
  lemma AnotherListed(v5: bool, s: System, id: int) returns (x: Message)
    requires Inv(v5, s) && !HasFreeId(s)
    ensures x in s.sender.outbound && x.msgid != id && x.msgid != s.sender.msgID && IsId(x.msgid)
  {
    var i: int := if 1 != id && 1 != s.sender.msgID then 1
                  else if 2 != id && 2 != s.sender.msgID then 2 else 3;
    AssignSpec(s.sender.msgID, Ids(s.sender.outbound));
    hide Assign;
    assert IsId(i) && i in Ids(s.sender.outbound);
    x :| x in s.sender.outbound && x.msgid == i;
  }

  /** Some id becomes free while m stays as it is. */
  lemma FreesId(v5: bool, s: System, m: Message) returns (steps: seq<Step>, t: System)
    requires Inv(v5, s) && Unsent(v5, s, m)
    ensures Goes(v5, s, steps, t) && Connected(steps) && Inv(v5, t) && Unsent(v5, t, m) && HasFreeId(t)
  {
    hide Inv, Unsent, Goes, Connected, HasFreeId, Do, Enabled, Find, Shrinks;
    var a, r := Drained(v5, s, Some(m));
    if HasFreeId(r) {
      steps, t := a, r;
    } else {
      var x := AnotherListed(v5, r, m.msgid);
      var b, u := Completed(v5, r, Some(m), x);
      FreeAgain(v5, u, x.msgid);
      GoesThen(v5, s, a, r, b, u);
      BothConnected(a, b);
      steps, t := a + b, u;
    }
  }

  // ---- a message gets delivered

  /** The publish call n has no message on record any more. */
  lemma NoneLeft(v5: bool, s: System, t: System, x: Message, n: nat)
    requires Inv(v5, s) && x in s.sender.outbound && Num(x.body) == n && x.body.Content?
    requires Shrinks(s.sender.outbound, t.sender.outbound) && Find(t.sender.outbound, x.msgid) == None && Inv(v5, t)
    ensures !InFlight(t.sender.outbound, n)
  {
    OutNumbered(s.sender.outbound, s.published);
    if y :| y in t.sender.outbound && y.body.Content? && y.body.serial == n {
      var z :| z in s.sender.outbound && Same(z, y);
      assert z == x;
      FindMember(t.sender.outbound, x.msgid);
    }
  }

  lemma AnotherMessage(v5: bool, s: System, m: Message, x: Message)
    requires Inv(v5, s) && Open(v5, s, m) && x in s.sender.outbound && Num(x.body) != Num(m.body)
    ensures x.msgid != m.msgid
  {
    OpenIs(v5, s, m);
    FindMember(s.sender.outbound, m.msgid);
  }

  /** Reads and retries take the publish call n off the record. */
  lemma Finished(v5: bool, s: System, keep: Found, n: nat) returns (steps: seq<Step>, t: System)
    requires Inv(v5, s) && Keeps(v5, s, keep) && (keep.Some? ==> Num(keep.m.body) != n)
    ensures Goes(v5, s, steps, t) && Connected(steps) && Inv(v5, t) && Keeps(v5, t, keep)
    ensures !InFlight(t.sender.outbound, n) && t.published == s.published
  {
    hide Inv, Unsent, Open, Goes, Connected, Do, Enabled, Find, Shrinks;
    var a, r := Drained(v5, s, keep);
    if x :| x in r.sender.outbound && x.body.Content? && x.body.serial == n {
      if keep.Some? {
        assert Open(v5, r, keep.m) by { UnsentOpen(v5, r, keep.m); }
        AnotherMessage(v5, r, keep.m, x);
      }
      var b, u := Completed(v5, r, keep, x);
      NoneLeft(v5, r, u, x, n);
      GoesThen(v5, s, a, r, b, u);
      BothConnected(a, b);
      steps, t := a + b, u;
    } else {
      steps, t := a, r;
    }
  }

  lemma UnsentOpen(v5: bool, s: System, m: Message)
    requires Unsent(v5, s, m)
    ensures Open(v5, s, m)
  {
  }

  lemma {:induction false} LogGrows(v5: bool, s: System, steps: seq<Step>, t: System)
    requires Goes(v5, s, steps, t)
    ensures s.receiver.delivered <= t.receiver.delivered
    decreases |steps|
  {
    if steps != [] {
      LogGrowsOne(v5, s, steps[0]);
      LogGrows(v5, Do(s, v5, steps[0]), steps[1..], t);
    }
  }

  lemma LogGrowsOne(v5: bool, s: System, step: Step)
    requires Enabled(s, step)
    ensures s.receiver.delivered <= Do(s, v5, step).receiver.delivered
  {
  }

  lemma {:induction false} Counted(log: seq<Entry>, n: nat, from: nat) returns (b: nat)
    requires from <= |log| && Count(log, n) > Count(log[..from], n)
    ensures from <= b < |log| && log[b].qos == 2 && Num(log[b].content) == n
    decreases |log|
  {
    assert log[..|log|] == log;
    if from == |log| {
      assert false;
    } else {
      var last := |log| - 1;
      var e := log[last];
      if e.qos == 2 && e.content.Content? && e.content.serial == n {
        b := last;
      } else {
        assert log[..last][..from] == log[..from];
        b := Counted(log[..last], n, from);
      }
    }
  }

  lemma OpenCount(v5: bool, s: System, m: Message)
    requires Inv(v5, s) && Open(v5, s, m)
    ensures m.body.Content? && m.body.serial < |s.published| && s.published[m.body.serial].qos == 2
    ensures Count(s.receiver.delivered, m.body.serial) == 0
  {
    OpenIs(v5, s, m);
    assert Genuine(s.published, Entry(m.body, m.qos, m.retain));
    assert !Done(v5, m, Find(s.receiver.inbound, m.msgid));
  }

  /** What is off the record has been delivered. */
  lemma OffRecord(v5: bool, s: System, n: nat) returns (e: Entry)
    requires Inv(v5, s) && n < |s.published| && s.published[n].qos == 2 && !InFlight(s.sender.outbound, n)
    ensures e in s.receiver.delivered && e.qos == 2 && Num(e.content) == n
  {
    assert Count(s.receiver.delivered, n) == 1;
    hide Inv;
    var b := Counted(s.receiver.delivered, n, 0);
    e := s.receiver.delivered[b];
  }

  /** Something newer than the undelivered message m has been delivered: m comes out of order. */
  lemma LateBreaks(v5: bool, s: System, m: Message, e: Entry) returns (steps: seq<Step>, t: System)
    requires Inv(v5, s) && Open(v5, s, m)
    requires e in s.receiver.delivered && e.qos == 2 && Num(m.body) <= Num(e.content)
    ensures Goes(v5, s, steps, t) && Connected(steps) && !LogRises(t.receiver.delivered)
  {
    OpenCount(v5, s, m);
    var n := m.body.serial;
    hide Open, Goes, Connected;
    steps, t := Finished(v5, s, None, n);
    assert Count(t.receiver.delivered, n) == 1;
    hide Inv;
    LogGrows(v5, s, steps, t);
    Late(s.receiver.delivered, t.receiver.delivered, n, e);
  }

  lemma Late(log: seq<Entry>, now: seq<Entry>, n: nat, e: Entry)
    requires log <= now && Count(now, n) > Count(log, n) && e in log && e.qos == 2 && n <= Num(e.content)
    ensures !LogRises(now)
  {
    assert now[..|log|] == log;
    var b := Counted(now, n, |log|);
    var a :| 0 <= a < |log| && log[a] == e;
    assert now[a] == e;
  }

  // ---- the next publish call overtakes what is not under way

  lemma KeptPublish(v5: bool, s: System, step: Step, m: Message)
    requires Inv(v5, s) && Unsent(v5, s, m) && Enabled(s, step) && step.PublishCall? && step.qos == 2
    ensures var t := Do(s, v5, step);
            && Unsent(v5, t, m) && t.published == s.published + [Entry(Content(|s.published|, step.topic, step.payload),
                                                                       2, step.retain)]
            && Num(m.body) < |s.published|
  {
    OpenIs(v5, s, m);
    Publishes(v5, s, step);
    PublishedFind(s, step);
    OlderThan(v5, s);
    OpenCount(v5, s, m);
    NotItsId(s, step, m);
    hide Inv, Find, Has, Assign, Ids;
    Push(s.toReceiver, PublishSent(s, step), m.msgid);
    hide NoneBehind, PubsAre;
  }

  lemma NotItsId(s: System, step: Step, m: Message)
    requires ListsInv(s) && Enabled(s, step) && step.PublishCall? && step.qos == 2 && m in s.sender.outbound
    ensures Published(s, step).msgid != m.msgid
    ensures forall t :: !Is(PublishSent(s, step), t, m.msgid)
  {
    AssignSpec(s.sender.msgID, Ids(s.sender.outbound));
    hide Assign;
  }

  lemma UnsentBreaks(v5: bool, s: System, m: Message) returns (steps: seq<Step>, t: System)
    requires Inv(v5, s) && Unsent(v5, s, m)
    ensures Goes(v5, s, steps, t) && Connected(steps) && !LogRises(t.receiver.delivered)
  {
    hide Inv, Unsent, Do, Goes, Connected, Assign, Ids, Open;
    var a, r := FreesId(v5, s, m);
    var step := PublishCall([], [], 2, false);
    assert Enabled(r, step);
    hide Enabled, HasFreeId;
    var n, u := |r.published|, Do(r, v5, step);
    KeptPublish(v5, r, step, m);
    StepKeepsInv(v5, r, step);
    var b, w := Finished(v5, u, Some(m), n);
    var e := OffRecord(v5, w, n);
    UnsentOpen(v5, w, m);
    var c, x := LateBreaks(v5, w, m, e);
    GoesThen(v5, u, b, w, c, x);
    BothConnected(b, c);
    OneStep(v5, r, step, b + c, x);
    GoesThen(v5, s, a, r, [step] + (b + c), x);
    BothConnected(a, [step] + (b + c));
    steps, t := a + ([step] + (b + c)), x;
  }
  // ---- version 5: a PUBLISH overtakes

  /** log' is log with more behind it, message n among that. */
  ghost predicate HandedSince(log: seq<Entry>, log': seq<Entry>, n: Message) {
    log <= log' && exists b :: |log| <= b < |log'| && log'[b].qos == 2 && log'[b].content == n.body
  }

  /** The receiver reads the PUBLISH of a waiting message. */
  lemma ReadsFirst(s: System, n: Message)
    requires Inv(true, s) && Enabled(s, ReceiverReads) && Is(s.toReceiver[0], Pub, n.msgid)
    requires Waits(s.sender.outbound, s.receiver.inbound, n)
    ensures HandedSince(s.receiver.delivered, Do(s, true, ReceiverReads).receiver.delivered, n)
  {
    ReceivedLog(s.receiver, s.toReceiver[0]);
    FirstWaits(s, n);
    var log' := Do(s, true, ReceiverReads).receiver.delivered;
    assert log'[|s.receiver.delivered|].content == n.body;
  }

  /** What waits in s and has no PUBLISH among the first k + 1 packets still waits in t. */
  ghost predicate Spared(s: System, t: System, k: nat)
    requires k < |s.toReceiver|
  {
    forall m :: Waits(s.sender.outbound, s.receiver.inbound, m) && !Has(s.toReceiver[..k + 1], Pub, m.msgid) ==>
      Waits(t.sender.outbound, t.receiver.inbound, m)
  }

  lemma SparedOne(s: System, k: nat)
    requires Inv(true, s) && Enabled(s, ReceiverReads) && k < |s.toReceiver|
    ensures Spared(s, Do(s, true, ReceiverReads), k)
  {
    var ch := s.toReceiver;
    var t := Do(s, true, ReceiverReads);
    hide Inv, Do, Waits;
    ReadEnabled(true, s);
    forall m | Waits(s.sender.outbound, s.receiver.inbound, m) && !Has(ch[..k + 1], Pub, m.msgid)
      ensures Waits(t.sender.outbound, t.receiver.inbound, m)
    {
      assert ch[..k + 1][0] == ch[0];
      Pop(ch[..k + 1], m.msgid);
      StillWaits(s, m);
    }
  }

  lemma SparedThen(s: System, r: System, t: System, k: nat)
    requires 0 < k < |s.toReceiver| && r.toReceiver == s.toReceiver[1..]
    requires Spared(s, r, k) && Spared(r, t, k - 1)
    ensures Spared(s, t, k)
  {
    var ch := s.toReceiver;
    assert ch[..k + 1][1..] == ch[1..][..k];
    hide Waits;
    forall m | Waits(s.sender.outbound, s.receiver.inbound, m) && !Has(ch[..k + 1], Pub, m.msgid)
      ensures Waits(t.sender.outbound, t.receiver.inbound, m)
    {
      Pop(ch[..k + 1], m.msgid);
    }
  }

  /** Read up to the k-th packet, the PUBLISH of a waiting message n: n is handed over,
      and whatever has no PUBLISH up to there still waits. */
  lemma {:induction false} ReadTo(s: System, n: Message, k: nat) returns (steps: seq<Step>, t: System)
    requires Inv(true, s) && k < |s.toReceiver| && Is(s.toReceiver[k], Pub, n.msgid)
    requires Waits(s.sender.outbound, s.receiver.inbound, n)
    ensures Goes(true, s, steps, t) && Connected(steps) && Inv(true, t)
    ensures HandedSince(s.receiver.delivered, t.receiver.delivered, n)
    ensures Spared(s, t, k)
    decreases k
  {
    hide Do, Inv, Enabled, Waits, Goes, Spared, Connected;
    ReadEnabled(true, s);
    StepKeepsInv(true, s, ReceiverReads);
    SparedOne(s, k);
    var r := Do(s, true, ReceiverReads);
    if Is(s.toReceiver[0], Pub, n.msgid) {
      ReadsFirst(s, n);
      NoSteps(true, r);
      steps, t := [], r;
    } else {
      StillWaits(s, n);
      steps, t := ReadTo(r, n, k - 1);
      SparedThen(s, r, t, k);
    }
    OneStep(true, s, ReceiverReads, steps, t);
    steps := [ReceiverReads] + steps;
  }

  lemma SinceEntry(log: seq<Entry>, log': seq<Entry>, n: Message) returns (e: Entry)
    requires HandedSince(log, log', n)
    ensures e in log' && e.qos == 2 && e.content == n.body
  {
    var b :| |log| <= b < |log'| && log'[b].qos == 2 && log'[b].content == n.body;
    e := log'[b];
  }

  lemma NotUpTo(ch: seq<Packet>, k: nat, id: int, other: int)
    requires k < |ch| && Is(ch[k], Pub, id) && id != other && !Has(ch[..k], Pub, other)
    ensures !Has(ch[..k + 1], Pub, other)
  {
    assert ch[..k + 1] == ch[..k] + [ch[k]];
    Push(ch[..k], ch[k], other);
  }

  /** n has a PUBLISH under way without an older m, which waits too, in front of it. */
  lemma PublishBreaks(s: System, m: Message, n: Message, k: nat) returns (steps: seq<Step>, t: System)
    requires Inv(true, s) && Num(m.body) < Num(n.body) && k < |s.toReceiver| && Is(s.toReceiver[k], Pub, n.msgid)
    requires Waits(s.sender.outbound, s.receiver.inbound, m) && Waits(s.sender.outbound, s.receiver.inbound, n)
    requires !Has(s.toReceiver[..k], Pub, m.msgid)
    ensures Goes(true, s, steps, t) && Connected(steps) && !LogRises(t.receiver.delivered)
  {
    assert m.msgid != n.msgid;
    NotUpTo(s.toReceiver, k, n.msgid, m.msgid);
    var a, r := ReadTo(s, n, k);
    hide Inv, Waits, Goes, Connected, Has;
    var e := SinceEntry(s.receiver.delivered, r.receiver.delivered, n);
    var b, u := LateBreaks(true, r, m, e);
    GoesThen(true, s, a, r, b, u);
    steps, t := a + b, u;
    BothConnected(a, b);
  }

  // ---- version 3.1.1: a PUBREL, PUBREC or PUBLISH overtakes

  lemma StaysOpenRead(s: System, m: Message)
    requires Inv(false, s) && Enabled(s, ReceiverReads) && Open(false, s, m)
    requires m.next == PubRec || !Is(s.toReceiver[0], Rel, m.msgid)
    ensures Open(false, Do(s, false, ReceiverReads), m)
  {
    ReceivedFind(false, s.receiver, s.toReceiver[0], m.msgid);
    hide Find;
  }

  /** The receiver reads the PUBREL of n: it is delivered. */
  lemma ReadsRelease(s: System, n: Message) returns (e: Entry)
    requires Inv(false, s) && Enabled(s, ReceiverReads) && Open(false, s, n) && n.next == PubComp
    requires Is(s.toReceiver[0], Rel, n.msgid)
    ensures e in Do(s, false, ReceiverReads).receiver.delivered && e.qos == 2 && Num(e.content) == Num(n.body)
  {
    var o := OrderAtRelease.ReleasedIsListed(s);
    OrderAtRelease.ReceivedLog(s.receiver, s.toReceiver[0]);
    var t := Do(s, false, ReceiverReads);
    var f := Find(s.receiver.inbound, n.msgid).m;
    FindListed(s.receiver.inbound, n.msgid);
    e := Entry(f.body, 2, f.retain);
    assert t.receiver.delivered == s.receiver.delivered + [e];
  }

  /** The PUBREL of n is read before any of m. */
  lemma {:induction false} ReleasedFirst(s: System, m: Message, n: Message, k: nat)
    returns (steps: seq<Step>, t: System, e: Entry)
    requires Inv(false, s) && Open(false, s, m) && Open(false, s, n) && n.next == PubComp && m.msgid != n.msgid
    requires k < |s.toReceiver| && Is(s.toReceiver[k], Rel, n.msgid)
    requires m.next == PubRec || !Has(s.toReceiver[..k], Rel, m.msgid)
    ensures Goes(false, s, steps, t) && Connected(steps) && Inv(false, t) && Open(false, t, m)
    ensures e in t.receiver.delivered && e.qos == 2 && Num(e.content) == Num(n.body)
    decreases k
  {
    hide Do, Inv, Enabled, Open, Goes, Connected;
    ReadEnabled(false, s);
    StepKeepsInv(false, s, ReceiverReads);
    var r := Do(s, false, ReceiverReads);
    if k > 0 && m.next != PubRec { PrefixPop(s.toReceiver, Rel, k, m.msgid); }
    hide Has;
    StaysOpenRead(s, m);
    if Is(s.toReceiver[0], Rel, n.msgid) {
      e := ReadsRelease(s, n);
      NoSteps(false, r);
      steps, t := [], r;
    } else {
      StaysOpenRead(s, n);
      steps, t, e := ReleasedFirst(r, m, n, k - 1);
    }
    OneStep(false, s, ReceiverReads, steps, t);
    steps := [ReceiverReads] + steps;
  }

  /** n, which is newer, has a PUBREL under way without one of m in front of it. */
  lemma PubrelBreaks(s: System, m: Message, n: Message, k: nat) returns (steps: seq<Step>, t: System)
    requires Inv(false, s) && Open(false, s, m) && Open(false, s, n) && Num(m.body) < Num(n.body)
    requires n.next == PubComp && k < |s.toReceiver| && Is(s.toReceiver[k], Rel, n.msgid)
    requires m.next == PubRec || !Has(s.toReceiver[..k], Rel, m.msgid)
    ensures Goes(false, s, steps, t) && Connected(steps) && !LogRises(t.receiver.delivered)
  {
    DifferentIds(s, m, n);
    hide Inv, Open, Goes, Connected, Has;
    var a, r, e := ReleasedFirst(s, m, n, k);
    var b, u := LateBreaks(false, r, m, e);
    GoesThen(false, s, a, r, b, u);
    BothConnected(a, b);
    steps, t := a + b, u;
  }

  lemma SameOpen(v5: bool, s: System, t: System, m: Message)
    requires Open(v5, s, m) && t.sender.outbound == s.sender.outbound && t.receiver == s.receiver
    ensures Open(v5, t, m)
  {
  }

  lemma PubrelResent(s: System, n: Message) returns (step: Step)
    requires Open(false, s, n) && n.next == PubComp
    ensures Enabled(s, step) && !Empties(step)
    ensures var t := Do(s, false, step);
            && t.toReceiver == s.toReceiver + [Pubrel(n.msgid)]
            && t.sender.outbound == s.sender.outbound && t.receiver == s.receiver
  {
    var out := s.sender.outbound;
    var j := IndexOf(out, n.msgid);
    step := RetryPass({j});
    assert j < |out| && Resend(out[j]) == [Pubrel(n.msgid)];
    hide Do, Resends, Open, Resend;
    Retries(false, s, {j});
    ResendsOnly(out, j, 0);
  }

  /** n is further than m: its PUBREL is sent again and read. */
  lemma AheadBreaks(s: System, m: Message, n: Message) returns (steps: seq<Step>, t: System)
    requires Inv(false, s) && Open(false, s, m) && Open(false, s, n) && Num(m.body) < Num(n.body)
    requires n.next == PubComp && m.next == PubRec
    ensures Goes(false, s, steps, t) && Connected(steps) && !LogRises(t.receiver.delivered)
  {
    hide Inv, Do, Goes, Connected, Open, Has, Enabled;
    var step := PubrelResent(s, n);
    StepKeepsInv(false, s, step);
    var r := Do(s, false, step);
    SameOpen(false, s, r, m);
    SameOpen(false, s, r, n);
    assert r.toReceiver[|s.toReceiver|] == Pubrel(n.msgid);
    steps, t := PubrelBreaks(r, m, n, |s.toReceiver|);
    OneStep(false, s, step, steps, t);
    steps := [step] + steps;
  }

  lemma PrefixPop(ch: seq<Packet>, t: Tag, k: nat, id: int)
    requires 0 < k < |ch| && !Has(ch[..k], t, id)
    ensures !Is(ch[0], t, id) && !Has(ch[1..][..k - 1], t, id)
  {
    assert ch[..k][0] == ch[0] && ch[..k][1..] == ch[1..][..k - 1];
    Pop(ch[..k], id);
    hide Has, NoneBehind, PubsAre;
  }

  lemma StaysOpenTaken(s: System, m: Message)
    requires Inv(false, s) && Enabled(s, SenderReads) && Open(false, s, m) && m.next == PubRec
    requires !Is(s.toSender[0], Rec, m.msgid)
    ensures Open(false, Do(s, false, SenderReads), m)
  {
    OpenIs(false, s, m);
    assert ListsInv(s);
    hide Inv, ListsInv, Find, AckedOut, Do, Enabled;
    Takes(false, s);
    StaysFound(s, m);
  }

  /** The sender takes the PUBREC of n. */
  lemma OpenAdvances(s: System, n: Message)
    requires Inv(false, s) && Enabled(s, SenderReads) && Open(false, s, n) && n.next == PubRec
    requires Is(s.toSender[0], Rec, n.msgid)
    ensures Open(false, Do(s, false, SenderReads), n.(next := PubComp))
  {
    OpenIs(false, s, n);
    AckedFind(s, n.msgid);
    Takes(false, s);
    RecReadInv(false, Find(s.sender.outbound, n.msgid), Find(s.receiver.inbound, n.msgid), s.toReceiver, s.toSender,
               n.msgid, Pubrel(n.msgid));
    hide Inv, Find, AckedOut, Do, Enabled, Has, NoneBehind, PubsAre;
  }

  lemma DifferentIds(s: System, m: Message, n: Message)
    requires Inv(false, s) && Open(false, s, m) && Open(false, s, n) && Num(m.body) != Num(n.body)
    ensures m.msgid != n.msgid
  {
    OpenIs(false, s, n);
    hide Inv, Open;
    AnotherMessage(false, s, m, n);
  }

  /** The PUBREC of n is read before any of m. */
  lemma {:induction false} PubrecBreaks(s: System, m: Message, n: Message, k: nat) returns (steps: seq<Step>, t: System)
    requires Inv(false, s) && Open(false, s, m) && Open(false, s, n) && Num(m.body) < Num(n.body)
    requires n.next == PubRec && m.next == PubRec
    requires k < |s.toSender| && Is(s.toSender[k], Rec, n.msgid) && !Has(s.toSender[..k], Rec, m.msgid)
    ensures Goes(false, s, steps, t) && Connected(steps) && !LogRises(t.receiver.delivered)
    decreases k
  {
    hide Inv, Do, Enabled, Open, Goes, Connected, Find, AckedOut, Has;
    DifferentIds(s, m, n);
    TakeShrinks(false, s);
    StepKeepsInv(false, s, SenderReads);
    Takes(false, s);
    var r := Do(s, false, SenderReads);
    if k > 0 { PrefixPop(s.toSender, Rec, k, m.msgid); }
    assert !Is(s.toSender[0], Rec, m.msgid);
    StaysOpenTaken(s, m);
    if Is(s.toSender[0], Rec, n.msgid) {
      OpenAdvances(s, n);
      steps, t := AheadBreaks(r, m, n.(next := PubComp));
    } else {
      StaysOpenTaken(s, n);
      steps, t := PubrecBreaks(r, m, n, k - 1);
    }
    OneStep(false, s, SenderReads, steps, t);
    steps := [SenderReads] + steps;
  }

  /** The PUBLISH of n is read before any of m, and no PUBREC of m is under way. */
  lemma {:induction false} PublishBreaks3(s: System, m: Message, n: Message, k: nat)
    returns (steps: seq<Step>, t: System)
    requires Inv(false, s) && Open(false, s, m) && Open(false, s, n) && Num(m.body) < Num(n.body)
    requires n.next == PubRec && m.next == PubRec && m.msgid != n.msgid && !Has(s.toSender, Rec, m.msgid)
    requires k < |s.toReceiver| && Is(s.toReceiver[k], Pub, n.msgid) && !Has(s.toReceiver[..k], Pub, m.msgid)
    ensures Goes(false, s, steps, t) && Connected(steps) && !LogRises(t.receiver.delivered)
    decreases k
  {
    hide Inv, Do, Enabled, Open, Goes, Connected;
    ReadEnabled(false, s);
    StepKeepsInv(false, s, ReceiverReads);
    StaysOpenRead(s, m);
    StaysOpenRead(s, n);
    var r := Do(s, false, ReceiverReads);
    if k > 0 { PrefixPop(s.toReceiver, Pub, k, m.msgid); }
    hide Has;
    NotYetAnswered(s, m);
    if Is(s.toReceiver[0], Pub, n.msgid) {
      var at := AnsweredBehind(s, n);
      assert !Has(r.toSender[..at], Rec, m.msgid) by { FrontHasNone(r.toSender, at, m.msgid); }
      steps, t := PubrecBreaks(r, m, n, at);
    } else {
      steps, t := PublishBreaks3(r, m, n, k - 1);
    }
    OneStep(false, s, ReceiverReads, steps, t);
    steps := [ReceiverReads] + steps;
  }

  lemma FrontHasNone(ch: seq<Packet>, k: nat, id: int)
    requires k <= |ch| && !Has(ch, Rec, id)
    ensures !Has(ch[..k], Rec, id)
  {
  }

  lemma NotYetAnswered(s: System, m: Message)
    requires Enabled(s, ReceiverReads) && !Has(s.toSender, Rec, m.msgid) && !Is(s.toReceiver[0], Pub, m.msgid)
    ensures !Has(Do(s, false, ReceiverReads).toSender, Rec, m.msgid)
  {
    var p := s.toReceiver[0];
    OrderAtRelease.ReceivedWire(s.receiver, p);
    hide Has, ReceiverHandles;
    NotAnswered(s.toSender, ReceiverHandles(s.receiver, false, p).wire, p, m.msgid);
  }

  lemma AnsweredBehind(s: System, n: Message) returns (at: nat)
    requires Enabled(s, ReceiverReads) && Is(s.toReceiver[0], Pub, n.msgid)
    ensures at < |Do(s, false, ReceiverReads).toSender| && Is(Do(s, false, ReceiverReads).toSender[at], Rec, n.msgid)
  {
    OrderAtRelease.ReceivedWire(s.receiver, s.toReceiver[0]);
    at := |s.toSender|;
  }

  /** n does not follow m. */
  lemma NotLed(s: System, m: Message, n: Message) returns (steps: seq<Step>, t: System)
    requires Inv(false, s) && Open(false, s, m) && Open(false, s, n) && Num(m.body) < Num(n.body)
    requires !OrderAtRelease.Leads(m, n, s.toReceiver, s.toSender)
    ensures Goes(false, s, steps, t) && Connected(steps) && !LogRises(t.receiver.delivered)
  {
    OpenIs(false, s, m);
    OpenIs(false, s, n);
    DifferentIds(s, m, n);
    hide Inv, Goes, Connected, Has, Open, Find;
    if n.next == PubComp {
      if m.next == PubRec {
        steps, t := AheadBreaks(s, m, n);
      } else {
        var k :| 0 <= k < |s.toReceiver| && Is(s.toReceiver[k], Rel, n.msgid) &&
                 !Has(s.toReceiver[..k], Rel, m.msgid);
        steps, t := PubrelBreaks(s, m, n, k);
      }
    } else if k :| 0 <= k < |s.toSender| && Is(s.toSender[k], Rec, n.msgid) && !Has(s.toSender[..k], Rec, m.msgid) {
      steps, t := PubrecBreaks(s, m, n, k);
    } else {
      var k :| 0 <= k < |s.toReceiver| && Is(s.toReceiver[k], Pub, n.msgid) && !Has(s.toReceiver[..k], Pub, m.msgid);
      steps, t := PublishBreaks3(s, m, n, k);
    }
  }

  // ---- what is under way for a message that is past its PUBREC

  /** Of an undelivered message that awaits PUBCOMP nothing is under way without a PUBREL. */
  ghost predicate RelAhead(s: System) {
    forall m ::
      Open(false, s, m) && m.next == PubComp && (Has(s.toReceiver, Pub, m.msgid) || Has(s.toSender, Rec, m.msgid)) ==>
        Has(s.toReceiver, Rel, m.msgid)
  }

  lemma RelAheadRead(s: System)
    requires Inv(false, s) && RelAhead(s) && Enabled(s, ReceiverReads)
    ensures RelAhead(Do(s, false, ReceiverReads))
  {
    var t, p := Do(s, false, ReceiverReads), s.toReceiver[0];
    var back := ReceiverHandles(s.receiver, false, p).wire;
    assert t.sender == s.sender && t.toReceiver == s.toReceiver[1..] && t.toSender == s.toSender + back;
    OrderAtRelease.ReceivedWire(s.receiver, p);
    hide Inv, Do, Enabled, ReceiverHandles, Has, NoneBehind, PubsAre;
    forall m | Open(false, t, m) && m.next == PubComp &&
               (Has(t.toReceiver, Pub, m.msgid) || Has(t.toSender, Rec, m.msgid))
      ensures Has(t.toReceiver, Rel, m.msgid)
    {
      OrderAtRelease.ReadUnreleased(s, t.receiver.inbound, m);
      Pop(s.toReceiver, m.msgid);
      if !Has(s.toReceiver, Pub, m.msgid) && !Has(s.toSender, Rec, m.msgid) {
        NotAnswered(s.toSender, back, p, m.msgid);
      }
    }
  }

  lemma RelFollows(toR: seq<Packet>, toS: seq<Packet>, m: Message, o: Message, p: Packet)
    requires toS != [] && toS[0] == p && IsAck(p)
    requires if p.Pubrec? then m == OrderAtRelease.Advanced(o, p.msgid) else m == o
    requires m.next == PubComp
    requires o.next == PubComp && (Has(toR, Pub, o.msgid) || Has(toS, Rec, o.msgid)) ==> Has(toR, Rel, o.msgid)
    ensures var toR' := toR + (if p.Pubrec? then [Pubrel(p.msgid)] else []);
            Has(toR', Pub, m.msgid) || Has(toS[1..], Rec, m.msgid) ==> Has(toR', Rel, m.msgid)
  {
    Pop(toS, m.msgid);
    Push(toR, Pubrel(p.msgid), m.msgid);
    assert toR + [] == toR;
    hide Has, NoneBehind, PubsAre;
  }

  lemma RelAheadTaken(s: System)
    requires Inv(false, s) && RelAhead(s) && Enabled(s, SenderReads)
    ensures RelAhead(Do(s, false, SenderReads))
  {
    var t, p := Do(s, false, SenderReads), s.toSender[0];
    assert IsAck(p);
    Takes(false, s);
    hide Inv, Do, Enabled, Has, AckedOut, OrderAtRelease.Unreleased, OrderAtRelease.Advanced;
    forall m | Open(false, t, m) && m.next == PubComp &&
               (Has(t.toReceiver, Pub, m.msgid) || Has(t.toSender, Rec, m.msgid))
      ensures Has(t.toReceiver, Rel, m.msgid)
    {
      var o := TakenFrom(s, m);
      RelFollows(s.toReceiver, s.toSender, m, o, p);
    }
  }

  lemma TakenFrom(s: System, m: Message) returns (o: Message)
    requires Inv(false, s) && Enabled(s, SenderReads) && Open(false, Do(s, false, SenderReads), m)
    ensures Open(false, s, o)
    ensures m == if s.toSender[0].Pubrec? then OrderAtRelease.Advanced(o, s.toSender[0].msgid) else o
  {
    Takes(false, s);
    hide Inv, Do, Enabled, AckedOut, OrderAtRelease.Unreleased, OrderAtRelease.Advanced;
    OrderAtRelease.AckedUnreleased(s, m);
    o :| OrderAtRelease.Unreleased(s.sender.outbound, s.receiver.inbound, o) &&
         m == (if s.toSender[0].Pubrec? then OrderAtRelease.Advanced(o, s.toSender[0].msgid) else o);
  }

  lemma RelAheadAppend(s: System, t: System, more: seq<Packet>)
    requires RelAhead(s) && t.toReceiver == s.toReceiver + more && t.toSender == s.toSender
    requires forall m :: Open(false, t, m) && m.next == PubComp ==> Open(false, s, m) && !Has(more, Pub, m.msgid)
    ensures RelAhead(t)
  {
    hide Open, Has;
    forall m | Open(false, t, m) && m.next == PubComp &&
               (Has(t.toReceiver, Pub, m.msgid) || Has(t.toSender, Rec, m.msgid))
      ensures Has(t.toReceiver, Rel, m.msgid)
    {
      if Has(t.toReceiver, Pub, m.msgid) { HasConcat(s.toReceiver, more, Pub, m.msgid); }
      OrderAtRelease.HasMore(s.toReceiver, more, Rel, m.msgid);
    }
  }

  lemma RelAheadPublish(s: System, step: Step)
    requires Inv(false, s) && RelAhead(s) && Enabled(s, step) && step.PublishCall?
    ensures RelAhead(Do(s, false, step))
  {
    var t := Do(s, false, step);
    Publishes(false, s, step);
    OrderAtRelease.PublishUnreleased(s, step, t.sender.outbound);
    hide Inv, Do, Enabled, Assign, RelAhead;
    forall m | Open(false, t, m) && m.next == PubComp
      ensures Open(false, s, m) && !Has([PublishSent(s, step)], Pub, m.msgid)
    {
      OpenIs(false, s, m);
      if step.qos == 2 { NotItsId(s, step, m); }
    }
    RelAheadAppend(s, t, [PublishSent(s, step)]);
  }

  lemma RelAheadRetry(s: System, due: set<nat>)
    requires Inv(false, s) && RelAhead(s)
    ensures RelAhead(Do(s, false, RetryPass(due)))
  {
    var out := s.sender.outbound;
    var t := Do(s, false, RetryPass(due));
    Retries(false, s, due);
    ResendsAre(out, due, 0);
    var more := Resends(out, due, 0);
    hide Do, Resends, RelAhead;
    forall m | Open(false, t, m) && m.next == PubComp ensures Open(false, s, m) && !Has(more, Pub, m.msgid) {
      SameOpen(false, t, s, m);
      NotPublishedAgain(s, m, more);
    }
    RelAheadAppend(s, t, more);
  }

  lemma OnlyListed(s: System, m: Message)
    requires Inv(false, s) && Open(false, s, m)
    ensures m in s.sender.outbound && forall x :: x in s.sender.outbound && x.msgid == m.msgid ==> x == m
  {
    OpenIs(false, s, m);
    FindMember(s.sender.outbound, m.msgid);
  }

  lemma NotPublishedAgain(s: System, m: Message, more: seq<Packet>)
    requires Inv(false, s) && Open(false, s, m) && m.next == PubComp
    requires forall p :: p in more ==> Resendable(s.sender.outbound, p)
    ensures !Has(more, Pub, m.msgid)
  {
    OpenIs(false, s, m);
    OnlyListed(s, m);
    hide Inv, Open, Find;
    if k :| 0 <= k < |more| && Is(more[k], Pub, m.msgid) {
      assert more[k] in more;
      NotAgain(s.sender.outbound, m, more[k]);
    }
  }

  lemma NotAgain(out: seq<Message>, m: Message, p: Packet)
    requires (forall x :: x in out && x.msgid == m.msgid ==> x == m) && m.qos == 2 && m.next == PubComp
    requires Resendable(out, p)
    ensures !Is(p, Pub, m.msgid)
  {
  }

  lemma RelAheadStep(s: System, step: Step)
    requires Inv(false, s) && RelAhead(s) && Enabled(s, step)
    ensures RelAhead(Do(s, false, step))
  {
    hide Inv;
    match step
    case PublishCall(_, _, _, _) => RelAheadPublish(s, step);
    case ReceiverReads => RelAheadRead(s);
    case SenderReads => RelAheadTaken(s);
    case RetryPass(due) => RelAheadRetry(s, due);
    case _ =>
      hide Open;
      assert Do(s, false, step).toReceiver == [] && Do(s, false, step).toSender == [];
  }

  lemma {:induction false} RunRelAhead(states: seq<System>, steps: seq<Step>, k: nat)
    requires Run(false, states, steps) && k < |states|
    ensures RelAhead(states[k])
  {
    hide Inv, Do, Enabled;
    if k == 0 {
      hide Open;
    } else {
      RunRelAhead(states, steps, k - 1);
      RunInv(false, states, steps, k - 1);
      assert states[k - 1 + 1] == Do(states[k - 1], false, steps[k - 1]);
      hide RelAhead;
      RelAheadStep(states[k - 1], steps[k - 1]);
    }
  }

  // ---- exactly when the order is kept

  lemma Disordered5(s: System) returns (steps: seq<Step>, t: System)
    requires Inv(true, s) && !Ordering.Ordered(s)
    ensures Goes(true, s, steps, t) && Connected(steps) && !LogRises(t.receiver.delivered)
  {
    var out, inb, ch, log := s.sender.outbound, s.receiver.inbound, s.toReceiver, s.receiver.delivered;
    hide Inv, Waits, Has, Connected, Goes;
    if !LogRises(log) {
      NoSteps(true, s);
      steps, t := [], s;
    } else if !LogBefore(out, inb, log) {
      var e, m :| e in log && e.qos == 2 && Waits(out, inb, m) && Num(m.body) <= Num(e.content);
      steps, t := LateBreaks(true, s, m, e);
    } else if m :| Waits(out, inb, m) && !Has(ch, Pub, m.msgid) {
      steps, t := UnsentBreaks(true, s, m);
    } else {
      var m, n, k :| Waits(out, inb, m) && Waits(out, inb, n) && Num(m.body) < Num(n.body) && 0 <= k < |ch| &&
        Is(ch[k], Pub, n.msgid) && !Has(ch[..k], Pub, m.msgid);
      steps, t := PublishBreaks(s, m, n, k);
    }
  }

  lemma StuckUnsent(s: System, m: Message)
    requires Inv(false, s) && RelAhead(s) && Open(false, s, m)
    requires !OrderAtRelease.Moving(m, s.toReceiver, s.toSender)
    ensures Unsent(false, s, m)
  {
    OpenIs(false, s, m);
    hide Inv, Has, OrderAtRelease.Unreleased;
  }

  lemma Disordered3(s: System) returns (steps: seq<Step>, t: System)
    requires Inv(false, s) && RelAhead(s) && !OrderAtRelease.Ordered(s)
    ensures Goes(false, s, steps, t) && Connected(steps) && !LogRises(t.receiver.delivered)
  {
    var out, inb, log := s.sender.outbound, s.receiver.inbound, s.receiver.delivered;
    var toR, toS := s.toReceiver, s.toSender;
    hide Inv, RelAhead, OrderAtRelease.Unreleased, OrderAtRelease.Leads, OrderAtRelease.Moving, Connected, Goes;
    if !LogRises(log) {
      NoSteps(false, s);
      steps, t := [], s;
    } else if !OrderAtRelease.LogBefore(out, inb, log) {
      var e, m :| e in log && e.qos == 2 && OrderAtRelease.Unreleased(out, inb, m) && Num(m.body) <= Num(e.content);
      steps, t := LateBreaks(false, s, m, e);
    } else if m :| OrderAtRelease.Unreleased(out, inb, m) && !OrderAtRelease.Moving(m, toR, toS) {
      StuckUnsent(s, m);
      steps, t := UnsentBreaks(false, s, m);
    } else {
      var m, n :| OrderAtRelease.Unreleased(out, inb, m) && OrderAtRelease.Unreleased(out, inb, n) &&
        Num(m.body) < Num(n.body) && !OrderAtRelease.Leads(m, n, toR, toS);
      steps, t := NotLed(s, m, n);
    }
  }

  /** From every other state that a run reaches some connected continuation delivers out of order. */
  lemma Disordered(v5: bool, states: seq<System>, more: seq<Step>, k: nat) returns (steps: seq<Step>, t: System)
    requires Run(v5, states, more) && k < |states| && !Lined(v5, states[k])
    ensures Goes(v5, states[k], steps, t) && Connected(steps) && !LogRises(t.receiver.delivered)
  {
    RunInv(v5, states, more, k);
    hide Run, Inv, Ordering.Ordered, OrderAtRelease.Ordered, RelAhead, Goes, Connected, LogRises;
    if v5 {
      steps, t := Disordered5(states[k]);
    } else {
      RunRelAhead(states, more, k);
      steps, t := Disordered3(states[k]);
    }
  }

  /** In any state that a run can reach, in either version: while the connection holds the QoS 2 messages are delivered
      in order, however the run goes on, exactly if they have been so far, nothing undelivered is older than something
      delivered, and what is undelivered is under way in line. */
  lemma OrderExact(v5: bool, states: seq<System>, steps: seq<Step>, k: nat)
    requires Run(v5, states, steps) && k < |states|
    ensures OrderSafe(v5, states[k]) <==> Lined(v5, states[k])
  {
    var s := states[k];
    RunInv(v5, states, steps, k);
    hide Run, Inv, Lined, Goes, Connected, LogRises;
    if Lined(v5, s) {
      forall more, t | Goes(v5, s, more, t) && Connected(more) ensures LogRises(t.receiver.delivered) {
        StaysLined(v5, s, more, t);
        LinedRises(v5, t);
      }
    } else {
      var more, t := Disordered(v5, states, steps, k);
    }
  }
}
