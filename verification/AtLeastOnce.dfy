/** QoS 1 over the two endpoints of Delivery.dfy (section 4.3.2 of MQTT 3.1.1 and MQTT 5.0): a message is delivered at
    least once by the time its record is gone, exactly if nothing from an earlier message with its id was under way when
    it was published. */
module AtLeastOnce {
  import opened MsgId
  import opened Session
  import opened Recovery
  import opened Sequences
  import opened Delivery

  predicate Carries(c: Content, n: nat) {
    c.Content? && c.serial == n
  }

  /** The message with serial number n has been handed to the application. */
  ghost predicate Handed(log: seq<Entry>, n: nat) {
    exists e :: e in log && Carries(e.content, n)
  }

  /** A PUBLISH that is answered with a PUBACK for id i. */
  predicate Pub1(p: Packet, i: int) {
    p.Publish? && p.qos == 1 && p.msgid == i
  }

  /** Nothing is under way that acknowledges id i, or will make the receiver acknowledge it. */
  ghost predicate Quiet(toReceiver: seq<Packet>, toSender: seq<Packet>, i: int) {
    (forall p :: p in toReceiver ==> !Pub1(p, i)) && (forall p :: p in toSender ==> p != Puback(i))
  }

  /** n is on record with id i, and only its own PUBLISH can get it acknowledged. */
  ghost predicate Guarded(out: seq<Message>, toReceiver: seq<Packet>, toSender: seq<Packet>, n: nat, i: int) {
    && Find(out, i).Some? && Find(out, i).m.qos == 1 && Carries(Find(out, i).m.body, n)
    && (forall p :: p in toReceiver && Pub1(p, i) ==> Carries(p.content, n))
    && (forall p :: p in toSender ==> p != Puback(i))
  }

  ghost predicate Safe(s: System, n: nat, i: int) {
    Handed(s.receiver.delivered, n) || Guarded(s.sender.outbound, s.toReceiver, s.toSender, n, i)
  }

  function AssignedBy(s: System): int {
    Assign(s.sender.msgID, Ids(s.sender.outbound))
  }

  // ---- safe from a quiet start

  lemma LogGrows(v5: bool, s: System, step: Step)
    requires Enabled(s, step)
    ensures forall e :: e in s.receiver.delivered ==> e in Do(s, v5, step).receiver.delivered
  {
  }

  lemma QuietStart(v5: bool, s: System, step: Step)
    requires Inv(v5, s) && Enabled(s, step) && step.PublishCall? && step.qos == 1
    requires Quiet(s.toReceiver, s.toSender, AssignedBy(s))
    ensures Safe(Do(s, v5, step), |s.published|, AssignedBy(s))
  {
    Publishes(v5, s, step);
    PublishedFind(s, step);
    hide Find, Assign, Inv, Do, Guarded, Quiet, Handed;
    var t := Do(s, v5, step);
    QuietGuards(t.sender.outbound, s.toReceiver, s.toSender, PublishSent(s, step), |s.published|, AssignedBy(s));
  }

  lemma QuietGuards(out: seq<Message>, ch: seq<Packet>, back: seq<Packet>, p: Packet, n: nat, i: int)
    requires Quiet(ch, back, i) && p.Publish? && Carries(p.content, n)
    requires Find(out, i).Some? && Find(out, i).m.qos == 1 && Carries(Find(out, i).m.body, n)
    ensures Guarded(out, ch + [p], back, n, i)
  {
    hide Find;
  }

  /** More packets to the receiver, and a list in which i still is the same message. */
  lemma StaysGuarded(out: seq<Message>, out': seq<Message>, ch: seq<Packet>, more: seq<Packet>, back: seq<Packet>,
                     n: nat, i: int)
    requires Guarded(out, ch, back, n, i) && Find(out', i) == Find(out, i)
    requires forall p :: p in more && Pub1(p, i) ==> Carries(p.content, n)
    ensures Guarded(out', ch + more, back, n, i)
  {
    hide Find, Pub1, Carries;
  }

  lemma PublishGuards(v5: bool, s: System, step: Step, n: nat, i: int)
    requires Inv(v5, s) && Enabled(s, step) && step.PublishCall?
    requires Guarded(s.sender.outbound, s.toReceiver, s.toSender, n, i)
    ensures var t := Do(s, v5, step); Guarded(t.sender.outbound, t.toReceiver, t.toSender, n, i)
  {
    Publishes(v5, s, step);
    PublishOther(v5, s, step, i);
    var t := Do(s, v5, step);
    hide Assign, Inv, Do, Enabled, Pub1, Carries, PublishSent, Published;
    assert Find(s.sender.outbound, i).Some?;
    hide Find, Guarded;
    StaysGuarded(s.sender.outbound, t.sender.outbound, s.toReceiver, [PublishSent(s, step)], s.toSender, n, i);
  }

  lemma PublishOther(v5: bool, s: System, step: Step, i: int)
    requires Inv(v5, s) && Enabled(s, step) && step.PublishCall? && Find(s.sender.outbound, i).Some?
    ensures !Pub1(PublishSent(s, step), i)
    ensures step.qos != 0 ==> Find(s.sender.outbound + [Published(s, step)], i) == Find(s.sender.outbound, i)
  {
    hide Assign, Find;
    if step.qos != 0 { PublishedFind(s, step); }
  }

  lemma ReceiverGuards(v5: bool, s: System, n: nat, i: int)
    requires Enabled(s, ReceiverReads) && Guarded(s.sender.outbound, s.toReceiver, s.toSender, n, i)
    ensures Safe(Do(s, v5, ReceiverReads), n, i)
  {
    var p := s.toReceiver[0];
    var t := Do(s, v5, ReceiverReads);
    assert p in s.toReceiver && forall q :: q in t.toReceiver ==> q in s.toReceiver;
    if Pub1(p, i) {
      var e := Entry(p.content, 1, p.retain);
      assert t.receiver.delivered == s.receiver.delivered + [e];
      assert e in t.receiver.delivered && Carries(e.content, n);
    } else {
      hide Find, Carries;
      AnswersOther(v5, s.receiver, p, i);
    }
  }

  lemma AnswersOther(v5: bool, r: Session, p: Packet, i: int)
    requires (p.Publish? || p.Pubrel?) && !Pub1(p, i)
    ensures forall q :: q in ReceiverHandles(r, v5, p).wire ==> q != Puback(i)
  {
  }

  lemma SenderGuards(v5: bool, s: System, n: nat, i: int)
    requires Inv(v5, s) && Enabled(s, SenderReads) && Guarded(s.sender.outbound, s.toReceiver, s.toSender, n, i)
    ensures var t := Do(s, v5, SenderReads); Guarded(t.sender.outbound, t.toReceiver, t.toSender, n, i)
  {
    var p := s.toSender[0];
    var t := Do(s, v5, SenderReads);
    assert p in s.toSender && forall q :: q in t.toSender ==> q in s.toSender;
    SenderLists(v5, s);
    AckedFind(s, i);
    SendsRels(v5, s.sender, p);
    hide Find, Carries, AckedOut, SenderHandles;
  }

  lemma SendsRels(v5: bool, c: Session, p: Packet)
    requires IsAck(p)
    ensures forall q :: q in SenderHandles(c, v5, p).wire ==> q.Pubrel?
  {
  }

  lemma ResendsCarry(out: seq<Message>, published: seq<Entry>, due: set<nat>, n: nat, i: int)
    requires OutboundInv(out, published) && Find(out, i).Some? && Carries(Find(out, i).m.body, n)
    ensures forall p :: p in Resends(out, due, 0) && Pub1(p, i) ==> Carries(p.content, n)
  {
    ResendsAre(out, due, 0);
    FindMember(out, i);
    hide Find, Resends, Carries;
    forall p | p in Resends(out, due, 0) && Pub1(p, i) ensures Carries(p.content, n) {
      var m :| m in out && Resend(m) == [p];
      SameId(out, m, Find(out, i).m);
    }
  }

  lemma RetryGuards(v5: bool, s: System, due: set<nat>, n: nat, i: int)
    requires Inv(v5, s) && Guarded(s.sender.outbound, s.toReceiver, s.toSender, n, i)
    ensures var t := Do(s, v5, RetryPass(due)); Guarded(t.sender.outbound, t.toReceiver, t.toSender, n, i)
  {
    var out := s.sender.outbound;
    Retries(v5, s, due);
    ResendsCarry(out, s.published, due, n, i);
    hide Find, Carries, Resends, Inv, Do, Pub1, Guarded;
    StaysGuarded(out, out, s.toReceiver, Resends(out, due, 0), s.toSender, n, i);
  }

  lemma RestartGuards(v5: bool, s: System, keys: seq<Key>, n: nat, i: int)
    requires Inv(v5, s) && Enabled(s, SenderRestarts(keys)) &&
      Guarded(s.sender.outbound, s.toReceiver, s.toSender, n, i)
    ensures var t := Do(s, v5, SenderRestarts(keys)); Guarded(t.sender.outbound, t.toReceiver, t.toSender, n, i)
  {
    RestoreMirrored(v5, s.sender.outbound, s.sender.inbound, s.sender.store, keys);
    FindMember(s.sender.outbound, i);
    FindMember(RestorePackets(s.sender.store, v5, keys).outbound, i);
    hide Find, Carries, RestorePackets, Mirror;
  }

  lemma SafeStep(v5: bool, s: System, step: Step, n: nat, i: int)
    requires Inv(v5, s) && Enabled(s, step) && Safe(s, n, i)
    ensures Safe(Do(s, v5, step), n, i)
  {
    LogGrows(v5, s, step);
    if !Handed(s.receiver.delivered, n) {
      match step
      case PublishCall(_, _, _, _) => PublishGuards(v5, s, step, n, i);
      case ReceiverReads => ReceiverGuards(v5, s, n, i);
      case SenderReads => SenderGuards(v5, s, n, i);
      case RetryPass(due) => RetryGuards(v5, s, due, n, i);
      case Drop =>
      case SenderRestarts(keys) => RestartGuards(v5, s, keys, n, i);
      case ReceiverRestarts(_) =>
    }
  }

  lemma {:induction false} SafeGoes(v5: bool, s: System, steps: seq<Step>, t: System, n: nat, i: int)
    requires Inv(v5, s) && Safe(s, n, i) && Goes(v5, s, steps, t)
    ensures Inv(v5, t) && Safe(t, n, i)
    decreases |steps|
  {
    hide Inv, Safe, Do, Enabled;
    if steps != [] {
      StepKeepsInv(v5, s, steps[0]);
      SafeStep(v5, s, steps[0], n, i);
      SafeGoes(v5, Do(s, v5, steps[0]), steps[1..], t, n, i);
    }
  }

  lemma SafeGone(v5: bool, s: System, n: nat, i: int)
    requires Inv(v5, s) && Safe(s, n, i) && !InFlight(s.sender.outbound, n)
    ensures Handed(s.receiver.delivered, n)
  {
    FindMember(s.sender.outbound, i);
  }

  // ---- lost otherwise

  /** The record of message n is gone, nothing is under way, and the application never got it. */
  ghost predicate Lost(s: System, n: nat) {
    !InFlight(s.sender.outbound, n) && !Handed(s.receiver.delivered, n) && s.toReceiver == [] && s.toSender == []
  }

  /** The receiver reads everything that was in front of the last packet. It cannot tell s from t,
      in which nothing was published yet, and so has nothing of what was published in between. */
  lemma {:induction false} ReadsUpTo(v5: bool, s: System, t: System, p: Packet, i: int)
    returns (steps: seq<Step>, u: System)
    requires Inv(v5, s) && Inv(v5, t) && !Quiet(s.toReceiver, s.toSender, i)
    requires t.receiver == s.receiver && t.toSender == s.toSender && t.toReceiver == s.toReceiver + [p]
    ensures Goes(v5, t, steps, u) && Inv(v5, u) && Puback(i) in u.toSender
    ensures u.sender == t.sender && u.published == t.published
    ensures forall e :: e in u.receiver.delivered ==> Genuine(s.published, e)
    decreases |s.toReceiver|
  {
    if s.toReceiver == [] {
      steps, u := [], t;
    } else {
      ReadsOne(v5, s, t, p, i);
      var s', t' := Do(s, v5, ReceiverReads), Do(t, v5, ReceiverReads);
      StepKeepsInv(v5, s, ReceiverReads);
      StepKeepsInv(v5, t, ReceiverReads);
      hide Inv, Do, Enabled, Quiet, Genuine;
      steps, u := ReadsUpTo(v5, s', t', p, i);
      steps := [ReceiverReads] + steps;
    }
  }

  lemma ReadsOne(v5: bool, s: System, t: System, p: Packet, i: int)
    requires Inv(v5, s) && !Quiet(s.toReceiver, s.toSender, i) && s.toReceiver != []
    requires t.receiver == s.receiver && t.toSender == s.toSender && t.toReceiver == s.toReceiver + [p]
    ensures Enabled(s, ReceiverReads) && Enabled(t, ReceiverReads)
    ensures var s', t' := Do(s, v5, ReceiverReads), Do(t, v5, ReceiverReads);
            && t'.receiver == s'.receiver && t'.toSender == s'.toSender && t'.toReceiver == s'.toReceiver + [p]
            && |s'.toReceiver| < |s.toReceiver| && s'.published == s.published
            && t'.sender == t.sender && t'.published == t.published
            && !Quiet(s'.toReceiver, s'.toSender, i)
  {
    var q := s.toReceiver[0];
    assert q in s.toReceiver && t.toReceiver[0] == q;
    assert t.toReceiver[1..] == s.toReceiver[1..] + [p];
    var e := ReceiverHandles(s.receiver, v5, q);
    assert Pub1(q, i) ==> e.wire == [Puback(i)];
    hide Inv, ReceiverHandles;
    StillLoud(s.toReceiver, s.toSender, e.wire, i);
  }

  lemma StillLoud(toReceiver: seq<Packet>, toSender: seq<Packet>, wire: seq<Packet>, i: int)
    requires !Quiet(toReceiver, toSender, i) && toReceiver != []
    requires Pub1(toReceiver[0], i) ==> wire == [Puback(i)]
    ensures !Quiet(toReceiver[1..], toSender + wire, i)
  {
    if Pub1(toReceiver[0], i) {
      assert Puback(i) in toSender + wire;
    } else if Puback(i) in toSender {
      assert Puback(i) in toSender + wire;
    } else {
      var p :| p in toReceiver && Pub1(p, i);
      assert p in toReceiver[1..];
    }
  }

  /** The sender reads up to the PUBACK, which it takes for the message that now has the id. */
  lemma {:induction false} ReadsPuback(v5: bool, s: System, n: nat, i: int) returns (steps: seq<Step>, t: System)
    requires Inv(v5, s) && Puback(i) in s.toSender
    requires Find(s.sender.outbound, i).Some? && Find(s.sender.outbound, i).m.qos == 1
    requires Carries(Find(s.sender.outbound, i).m.body, n)
    ensures Goes(v5, s, steps, t) && !InFlight(t.sender.outbound, n) && t.receiver == s.receiver
    decreases |s.toSender|
  {
    ReadsAck(v5, s, i);
    var r := Do(s, v5, SenderReads);
    if s.toSender[0] == Puback(i) {
      steps, t := [SenderReads], r;
      NoneLeft(v5, s, n, i);
      assert Goes(v5, r, [], r);
      hide Do, Enabled, Inv;
      assert steps[1..] == [];
    } else {
      StepKeepsInv(v5, s, SenderReads);
      hide Inv, Do, Enabled, Find;
      steps, t := ReadsPuback(v5, r, n, i);
      steps := [SenderReads] + steps;
    }
  }

  lemma ReadsAck(v5: bool, s: System, i: int)
    requires Inv(v5, s) && Puback(i) in s.toSender
    requires Find(s.sender.outbound, i).Some? && Find(s.sender.outbound, i).m.qos == 1
    ensures Enabled(s, SenderReads)
    ensures var r := Do(s, v5, SenderReads);
            && r.receiver == s.receiver && |r.toSender| < |s.toSender|
            && if s.toSender[0] == Puback(i) then Find(r.sender.outbound, i) == None
               else Puback(i) in r.toSender && Find(r.sender.outbound, i) == Find(s.sender.outbound, i)
  {
    assert s.toSender[0] in s.toSender;
    assert Enabled(s, SenderReads);
    SenderLists(v5, s);
    AckedFind(s, i);
    hide Find, AckedOut, SenderHandles, Inv;
  }

  lemma NoneLeft(v5: bool, s: System, n: nat, i: int)
    requires Inv(v5, s) && Enabled(s, SenderReads) && s.toSender[0] == Puback(i)
    requires Find(s.sender.outbound, i).Some? && Find(s.sender.outbound, i).m.qos == 1
    requires Carries(Find(s.sender.outbound, i).m.body, n)
    ensures !InFlight(Do(s, v5, SenderReads).sender.outbound, n)
  {
    SenderLists(v5, s);
    var out := s.sender.outbound;
    var k := IndexOf(out, i);
    FindMember(out, i);
    WithoutMembers(out, k);
    forall m | m in out && m.body.Content? && m.body.serial == n ensures m.msgid == i {
      assert Genuine(s.published, Entry(m.body, m.qos, m.retain));
    }
  }

  lemma StaleAckLoses(v5: bool, s: System, step: Step) returns (steps: seq<Step>, t: System)
    requires Inv(v5, s) && Enabled(s, step) && step.PublishCall? && step.qos == 1
    requires !Quiet(s.toReceiver, s.toSender, AssignedBy(s))
    ensures Goes(v5, Do(s, v5, step), steps, t) && Lost(t, |s.published|)
  {
    var n, i := |s.published|, AssignedBy(s);
    var r := Do(s, v5, step);
    StepKeepsInv(v5, s, step);
    Publishes(v5, s, step);
    PublishedFind(s, step);
    hide Do, Find, Inv, Enabled, Quiet, PublishSent;
    var a, u := ReadsUpTo(v5, s, r, PublishSent(s, step), i);
    var b, w := ReadsPuback(v5, u, n, i);
    GoesThen(v5, r, a, u, b, w);
    t := Dropped(v5, w);
    GoesThen(v5, r, a + b, w, [Drop], t);
    steps := a + b + [Drop];
  }

  lemma Dropped(v5: bool, s: System) returns (t: System)
    ensures Goes(v5, s, [Drop], t) && t == s.(toReceiver := [], toSender := [])
  {
    t := Do(s, v5, Drop);
    assert Goes(v5, t, [], t) && [Drop][1..] == [];
  }

  // ---- a run that gets there

  /** One message is on record, its PUBLISH was dropped with the connection, and k was the last id handed out. */
  ghost predicate Stalled(s: System, m: Message, k: nat) {
    s.sender.outbound == [m] && s.toReceiver == [] && s.toSender == [] && s.sender.msgID == k && OldOne(m)
  }

  predicate OldOne(m: Message) {
    m.msgid == 2 && m.qos == 1
  }

  function Later(k: nat): nat {
    if k == MAX_MSG_ID then 1 else k + 1
  }

  /** Ids run on past the one in use. */
  lemma NextFree(k: nat)
    requires 2 <= k <= MAX_MSG_ID
    ensures Assign(k, {2}) == Later(k)
  {
  }

  /** Another message is published, delivered and acknowledged. */
  lemma OneRound(v5: bool, s: System, call: Step, m: Message, k: nat) returns (t: System)
    requires Stalled(s, m, k) && 2 <= k <= MAX_MSG_ID && call.PublishCall? && call.qos == 1
    ensures Goes(v5, s, [call] + [ReceiverReads, SenderReads], t) && Stalled(t, m, Later(k))
  {
    var a := RoundPublished(v5, s, call, m, k);
    var b := RoundRead(v5, a, Later(k));
    t := RoundDone(v5, b, m, Later(k));
    hide Do, Enabled, Goes, Stalled;
    GoesOne(v5, s, call);
    GoesTwo(v5, a, ReceiverReads, SenderReads);
    GoesThen(v5, s, [call], a, [ReceiverReads, SenderReads], t);
  }

  lemma RoundPublished(v5: bool, s: System, call: Step, m: Message, k: nat) returns (t: System)
    requires Stalled(s, m, k) && 2 <= k <= MAX_MSG_ID && call.PublishCall? && call.qos == 1
    ensures Enabled(s, call) && t == Do(s, v5, call) && t.sender.msgID == Later(k) && t.toSender == []
    ensures |t.sender.outbound| == 2 && t.sender.outbound[0] == m && t.sender.outbound[1].msgid == Later(k)
    ensures t.sender.outbound[1].qos == 1
    ensures |t.toReceiver| == 1 && Pub1(t.toReceiver[0], Later(k))
  {
    assert Ids(s.sender.outbound) == {2};
    NextFree(k);
    hide Assign;
    t := Do(s, v5, call);
  }

  lemma RoundRead(v5: bool, s: System, i: nat) returns (t: System)
    requires s.toSender == [] && |s.toReceiver| == 1 && Pub1(s.toReceiver[0], i)
    ensures Enabled(s, ReceiverReads) && t == Do(s, v5, ReceiverReads)
    ensures t.sender == s.sender && t.toReceiver == [] && t.toSender == [Puback(i)]
  {
    t := Do(s, v5, ReceiverReads);
  }

  lemma RoundDone(v5: bool, s: System, m: Message, i: nat) returns (t: System)
    requires OldOne(m) && i != 2 && s.sender.msgID == i && s.toReceiver == [] && s.toSender == [Puback(i)]
    requires |s.sender.outbound| == 2 && s.sender.outbound[0] == m && s.sender.outbound[1].msgid == i
    requires s.sender.outbound[1].qos == 1
    ensures Enabled(s, SenderReads) && t == Do(s, v5, SenderReads) && Stalled(t, m, i)
  {
    var out := s.sender.outbound;
    assert out[1..][0] == out[1];
    assert IndexOf(out, i) == 1 + IndexOf(out[1..], i) == 1;
    assert Without(out, 1) == [m];
    t := Do(s, v5, SenderReads);
  }

  lemma {:induction false} Rounds(v5: bool, s: System, call: Step, m: Message, k: nat)
    returns (steps: seq<Step>, t: System)
    requires Stalled(s, m, k) && 2 <= k <= MAX_MSG_ID && call.PublishCall? && call.qos == 1
    ensures Goes(v5, s, steps, t) && Stalled(t, m, 1)
    decreases MAX_MSG_ID - k
  {
    hide Do, Enabled, Stalled;
    var r := OneRound(v5, s, call, m, k);
    if k == MAX_MSG_ID {
      steps, t := [call] + [ReceiverReads, SenderReads], r;
    } else {
      var more;
      more, t := Rounds(v5, r, call, m, k + 1);
      GoesThen(v5, s, [call] + [ReceiverReads, SenderReads], r, more, t);
      steps := [call] + [ReceiverReads, SenderReads] + more;
    }
  }

  const FIRST_STEPS: seq<Step> := [Drop, RetryPass({0})] + [ReceiverReads, SenderReads]

  /** Two messages are published and dropped with the connection; the retry on reconnecting stops after the first, which
      is delivered and acknowledged. */
  lemma FirstStalled(v5: bool, call: Step) returns (m: Message, t: System)
    requires call.PublishCall? && call.qos == 1
    ensures Goes(v5, START, [call, call] + FIRST_STEPS, t) && Stalled(t, m, 2)
  {
    var m1 := Message(1, 1, call.retain, Unset, Content(0, call.topic, call.payload));
    m := Message(2, 1, call.retain, Unset, Content(1, call.topic, call.payload));
    var a := TwoPublished(v5, call, m1, m);
    var b := FirstResent(v5, a, m1, m);
    t := FirstAcknowledged(v5, b, m1, m);
    hide Do, Enabled, Goes, Stalled;
    GoesThen(v5, a, [Drop, RetryPass({0})], b, [ReceiverReads, SenderReads], t);
    GoesThen(v5, START, [call, call], a, FIRST_STEPS, t);
  }

  lemma TwoPublished(v5: bool, call: Step, m1: Message, m: Message) returns (t: System)
    requires call.PublishCall? && call.qos == 1
    requires m1 == Message(1, 1, call.retain, Unset, Content(0, call.topic, call.payload))
    requires m == Message(2, 1, call.retain, Unset, Content(1, call.topic, call.payload))
    ensures Goes(v5, START, [call, call], t) && t.sender.outbound == [m1, m] && t.sender.msgID == 2
  {
    assert Ids([]) == {} && Assign(0, {}) == 1;
    var a := Do(START, v5, call);
    assert Ids([m1]) == {1} && Assign(1, {1}) == 2;
    t := Do(a, v5, call);
    hide Do;
    GoesTwo(v5, START, call, call);
  }

  lemma FirstResent(v5: bool, s: System, m1: Message, m: Message) returns (t: System)
    requires s.sender.outbound == [m1, m] && m1.msgid == 1 && m1.qos == 1
    ensures Goes(v5, s, [Drop, RetryPass({0})], t)
    ensures t.sender.outbound == [m1, m] && t.sender.msgID == s.sender.msgID
    ensures t.toReceiver == [Publish(true, 1, m1.retain, 1, m1.body)] && t.toSender == []
  {
    assert Resends([m1, m], {0}, 2) == [];
    assert Resends([m1, m], {0}, 1) == [];
    assert Resends([m1, m], {0}, 0) == [Publish(true, 1, m1.retain, 1, m1.body)];
    t := Do(Do(s, v5, Drop), v5, RetryPass({0}));
    hide Do;
    GoesTwo(v5, s, Drop, RetryPass({0}));
  }

  lemma FirstAcknowledged(v5: bool, s: System, m1: Message, m: Message) returns (t: System)
    requires s.sender.outbound == [m1, m] && m1.msgid == 1 && m1.qos == 1 && s.sender.msgID == 2 && OldOne(m)
    requires s.toReceiver == [Publish(true, 1, m1.retain, 1, m1.body)] && s.toSender == []
    ensures Goes(v5, s, [ReceiverReads, SenderReads], t) && Stalled(t, m, 2)
  {
    var a := Do(s, v5, ReceiverReads);
    assert a.toSender == [Puback(1)];
    assert Without([m1, m], 0) == [m];
    t := Do(a, v5, SenderReads);
    hide Do;
    GoesTwo(v5, s, ReceiverReads, SenderReads);
  }

  /** It is sent again twice, and the first of the two PUBACKs takes it off the record. */
  lemma TwiceResent(v5: bool, s: System, m: Message) returns (t: System)
    requires Stalled(s, m, 1)
    ensures Goes(v5, s, [RetryPass({0}), RetryPass({0})] + [ReceiverReads, ReceiverReads] + [SenderReads], t)
    ensures t.sender.outbound == [] && t.sender.msgID == 1 && t.toSender == [Puback(2)]
  {
    var p := Publish(true, 1, m.retain, 2, m.body);
    assert Resends([m], {0}, 1) == [];
    assert Resends([m], {0}, 0) == [p];
    var a := Do(Do(s, v5, RetryPass({0})), v5, RetryPass({0}));
    assert a.toReceiver == [p, p];
    var b := Do(Do(a, v5, ReceiverReads), v5, ReceiverReads);
    assert b.toSender == [Puback(2), Puback(2)];
    assert Without([m], 0) == [];
    t := Do(b, v5, SenderReads);
    hide Do, Enabled, Goes;
    GoesTwo(v5, s, RetryPass({0}), RetryPass({0}));
    GoesTwo(v5, a, ReceiverReads, ReceiverReads);
    GoesOne(v5, b, SenderReads);
    GoesThen(v5, s, [RetryPass({0}), RetryPass({0})], a, [ReceiverReads, ReceiverReads], b);
    GoesThen(v5, s, [RetryPass({0}), RetryPass({0})] + [ReceiverReads, ReceiverReads], b, [SenderReads], t);
  }

  /** A run, with never more than two messages on record, after which the next publish call is given an id that a
      PUBACK under way still acknowledges. */
  lemma StaleAckReached(v5: bool, call: Step) returns (steps: seq<Step>, t: System)
    requires call.PublishCall? && call.qos == 1
    ensures Goes(v5, START, steps, t) && Enabled(t, call)
    ensures AssignedBy(t) == 2 && !Quiet(t.toReceiver, t.toSender, AssignedBy(t))
  {
    var m, a := FirstStalled(v5, call);
    var more, b := Rounds(v5, a, call, m, 2);
    t := TwiceResent(v5, b, m);
    var first := [call, call] + FIRST_STEPS;
    var last := [RetryPass({0}), RetryPass({0})] + [ReceiverReads, ReceiverReads] + [SenderReads];
    GoesThen(v5, START, first, a, more, b);
    GoesThen(v5, START, first + more, b, last, t);
    steps := first + more + last;
    hide Do, Goes;
    assert Ids(t.sender.outbound) == {};
    assert Assign(1, {}) == 2;
    assert Puback(2) in t.toSender;
  }

  /** So there is a run in which a QoS 1 message is off the record, with nothing under way, and was never delivered. */
  lemma LossReached(v5: bool, call: Step) returns (steps: seq<Step>, t: System, n: nat)
    requires call.PublishCall? && call.qos == 1
    ensures Goes(v5, START, steps, t) && n < |t.published| && t.published[n].qos == 1 && Lost(t, n)
  {
    hide Inv, Quiet, Lost, Do, Enabled;
    var a, s := StaleAckReached(v5, call);
    StartInv(v5);
    GoesKeepsInv(v5, START, a, s);
    var b, u := StaleAckLoses(v5, s, call);
    n := |s.published|;
    var r := Do(s, v5, call);
    PublishesOne(v5, s, call);
    GoesOne(v5, s, call);
    GoesThen(v5, s, [call], r, b, u);
    GoesThen(v5, START, a, s, [call] + b, u);
    MorePublished(v5, r, b, u);
    steps, t := a + ([call] + b), u;
  }

  lemma PublishesOne(v5: bool, s: System, call: Step)
    requires Enabled(s, call) && call.PublishCall?
    ensures var p := Do(s, v5, call).published; |p| == |s.published| + 1 && p[|s.published|].qos == call.qos
  {
  }

  /** However the run goes on from here, message n has been delivered by the time its record is gone. */
  ghost predicate SureToArrive(v5: bool, s: System, n: nat) {
    forall more, t :: Goes(v5, s, more, t) && !InFlight(t.sender.outbound, n) ==> Handed(t.receiver.delivered, n)
  }

  /** At any QoS 1 publish call of any run: the message is sure to have been delivered by the time its record is gone,
      however the run goes on, if and only if nothing that acknowledges its id was still under way. */
  lemma AtLeastOnce(v5: bool, states: seq<System>, steps: seq<Step>, k: nat)
    requires Run(v5, states, steps) && k < |steps| && steps[k].PublishCall? && steps[k].qos == 1
    ensures SureToArrive(v5, states[k + 1], |states[k].published|) <==>
            Quiet(states[k].toReceiver, states[k].toSender, AssignedBy(states[k]))
  {
    var s, n, r := states[k], |states[k].published|, states[k + 1];
    RunInv(v5, states, steps, k);
    hide Do, Enabled;
    assert Enabled(s, steps[k]) && r == Do(s, v5, steps[k]);
    if Quiet(s.toReceiver, s.toSender, AssignedBy(s)) {
      QuietStart(v5, s, steps[k]);
      StepKeepsInv(v5, s, steps[k]);
      hide Inv, Safe, Quiet;
      forall more, t | Goes(v5, r, more, t) && !InFlight(t.sender.outbound, n) ensures Handed(t.receiver.delivered, n) {
        SafeGoes(v5, r, more, t, n, AssignedBy(s));
        SafeGone(v5, t, n, AssignedBy(s));
      }
    } else {
      var more, t := StaleAckLoses(v5, s, steps[k]);
    }
  }
}
