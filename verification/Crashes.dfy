/** Crashes in the middle of a handler, over the two endpoints of Delivery.dfy, whose steps are whole handlers. Between
    what a handler does to the store and what it hands to the application lies, in either version, one place at which
    a crash breaks exactly-once delivery; at all other places it does no harm. */
module Crashes {
  import opened MsgId
  import opened Session
  import opened Recovery
  import opened Delivery

  /** What a receiver has stored and handed over when it stops in the middle of handling p. A QoS 2 PUBLISH is stored as
      it is read, before it is handled; in 3.1.1 a released message is handed over before its record is removed. */
  function HalfHandled(r: Session, v5: bool, p: Packet): Session
    requires p.Publish? || p.Pubrel?
  {
    if p.Publish? then if p.qos == 2 then r.(store := r.store[Key(Received, v5, p.msgid) := p]) else r
    else if !v5 && Awaited(r, p.msgid) then
      var m := r.inbound[IndexOf(r.inbound, p.msgid)];
      Deliver(r, m.body, 2, m.retain)
    else r
  }

  /** A message with this id waits for its PUBREL. */
  predicate Awaited(r: Session, id: int) {
    var k := IndexOf(r.inbound, id);
    k < |r.inbound| && r.inbound[k].qos == 2 && r.inbound[k].next == PubRel
  }

  /** What a sender has stored when it stops in the middle of taking p. Only a message that has both records takes two
      steps to remove: its PUBLISH record goes first. */
  function HalfTaken(c: Session, v5: bool, p: Packet): Session
    requires IsAck(p)
  {
    var k := IndexOf(c.outbound, p.msgid);
    if p.Pubcomp? && k < |c.outbound| && c.outbound[k].qos == 2 && c.outbound[k].next == PubComp then
      c.(store := c.store - {Key(Sent, v5, p.msgid)})
    else c
  }

  datatype Move =
    | Whole(step: Step)
    | ReceiverCrashes(keys: seq<Key>)   // in the middle of the packet that is next, and restarts
    | SenderCrashes(keys: seq<Key>)

  ghost predicate Lists(keys: seq<Key>, store: Store) {
    Listing(keys, store) && forall k :: k in store ==> k in keys
  }

  ghost predicate CanMove(s: System, v5: bool, m: Move) {
    match m
    case Whole(step) => Enabled(s, step)
    case ReceiverCrashes(keys) =>
      Enabled(s, ReceiverReads) && Lists(keys, HalfHandled(s.receiver, v5, s.toReceiver[0]).store)
    case SenderCrashes(keys) =>
      Enabled(s, SenderReads) && Lists(keys, HalfTaken(s.sender, v5, s.toSender[0]).store)
  }

  ghost function Moved(s: System, v5: bool, m: Move): System
    requires CanMove(s, v5, m)
  {
    match m
    case Whole(step) => Do(s, v5, step)
    case ReceiverCrashes(keys) =>
      var r := HalfHandled(s.receiver, v5, s.toReceiver[0]);
      s.(receiver := Restart(r, v5, keys), toReceiver := [], toSender := [])
    case SenderCrashes(keys) =>
      var c := HalfTaken(s.sender, v5, s.toSender[0]);
      s.(sender := Restart(c, v5, keys), toReceiver := [], toSender := [])
  }

  /** The packet that the receiver is in the middle of is a first QoS 2 PUBLISH in version 5, or a PUBREL that releases
      a message in 3.1.1. */
  predicate Harmful(s: System, v5: bool, m: Move) {
    m.ReceiverCrashes? && s.toReceiver != [] &&
    var p := s.toReceiver[0];
    if v5 then p.Publish? && p.qos == 2 && Find(s.receiver.inbound, p.msgid).None?
    else p.Pubrel? && Awaited(s.receiver, p.msgid)
  }

  // ---- a crash is a restart before or after the step, but for what was handed over

  function WithLog(s: System, log: seq<Entry>): System {
    s.(receiver := s.receiver.(delivered := log))
  }

  /** The whole steps that leave everything but the log as the receiver's crash does. */
  ghost function WholeSteps(s: System, v5: bool, keys: seq<Key>): System
    requires CanMove(s, v5, ReceiverCrashes(keys))
  {
    var p := s.toReceiver[0];
    if p.Publish? && p.qos == 2 then Do(Do(s, v5, ReceiverReads), v5, ReceiverRestarts(keys))
    else Do(s, v5, ReceiverRestarts(keys))
  }

  lemma CrashIsSteps(v5: bool, s: System, keys: seq<Key>)
    requires Inv(v5, s) && CanMove(s, v5, ReceiverCrashes(keys))
    ensures Inv(v5, WholeSteps(s, v5, keys))
    ensures Moved(s, v5, ReceiverCrashes(keys)) ==
            WithLog(WholeSteps(s, v5, keys), HalfHandled(s.receiver, v5, s.toReceiver[0]).delivered)
  {
    hide Inv, Do, HalfHandled;
    CrashIsStepsButLog(v5, s, keys);
    WholeEnabled(v5, s, keys);
    var p := s.toReceiver[0];
    if p.Publish? && p.qos == 2 {
      StepKeepsInv(v5, s, ReceiverReads);
      StepKeepsInv(v5, Do(s, v5, ReceiverReads), ReceiverRestarts(keys));
    } else {
      StepKeepsInv(v5, s, ReceiverRestarts(keys));
    }
  }

  lemma WholeEnabled(v5: bool, s: System, keys: seq<Key>)
    requires CanMove(s, v5, ReceiverCrashes(keys))
    ensures Enabled(s, ReceiverReads)
    ensures var p := s.toReceiver[0];
            if p.Publish? && p.qos == 2 then Enabled(Do(s, v5, ReceiverReads), ReceiverRestarts(keys))
            else Enabled(s, ReceiverRestarts(keys))
  {
    hide Listing;
  }

  lemma CrashIsStepsButLog(v5: bool, s: System, keys: seq<Key>)
    requires CanMove(s, v5, ReceiverCrashes(keys))
    ensures Moved(s, v5, ReceiverCrashes(keys)) ==
            WithLog(WholeSteps(s, v5, keys), HalfHandled(s.receiver, v5, s.toReceiver[0]).delivered)
  {
    hide RestorePackets, Listing;
  }

  /** What the whole steps have handed over, compared with the crash. */
  lemma CrashLog(v5: bool, s: System, keys: seq<Key>)
    requires CanMove(s, v5, ReceiverCrashes(keys))
    ensures var p, log := s.toReceiver[0], s.receiver.delivered;
            var half, whole := HalfHandled(s.receiver, v5, p).delivered, WholeSteps(s, v5, keys).receiver.delivered;
            if !Harmful(s, v5, ReceiverCrashes(keys)) then half == whole
            else if v5 then half == log && whole == log + [Entry(p.content, 2, p.retain)]
            else var m := Find(s.receiver.inbound, p.msgid).m;
                 whole == log && half == log + [Entry(m.body, 2, m.retain)]
  {
    hide RestorePackets, Listing;
  }

  // ---- the sender

  lemma SenderCrashKeepsInv(v5: bool, s: System, keys: seq<Key>)
    requires Inv(v5, s) && CanMove(s, v5, SenderCrashes(keys))
    ensures Inv(v5, Moved(s, v5, SenderCrashes(keys)))
  {
    var p, c := s.toSender[0], s.sender;
    var half := HalfTaken(c, v5, p);
    DropKeepsInv(v5, s);
    if half == c {
      hide Inv, HalfTaken, Restart;
      SenderRestartKeepsInv(v5, Do(s, v5, Drop), keys);
      assert Moved(s, v5, SenderCrashes(keys)) == Do(Do(s, v5, Drop), v5, SenderRestarts(keys));
    } else {
      HalfRemovedKeepsInv(v5, s, keys);
    }
  }

  lemma HalfRemovedKeepsInv(v5: bool, s: System, keys: seq<Key>)
    requires Inv(v5, s) && CanMove(s, v5, SenderCrashes(keys)) && HalfTaken(s.sender, v5, s.toSender[0]) != s.sender
    ensures Inv(v5, Moved(s, v5, SenderCrashes(keys)))
  {
    hide Inv, Mirror, RestorePackets, HalfTaken;
    var id := s.toSender[0].msgid;
    var half := HalfTaken(s.sender, v5, s.toSender[0]).store;
    var a := Do(s, v5, SenderReads);
    var d := Do(a, v5, Drop);
    StepKeepsInv(v5, s, SenderReads);
    DropKeepsInv(v5, a);
    HalfIsOrphan(v5, s);
    SenderMirrors(v5, a);
    OrphanRestored(v5, a.sender, half, id, keys);
    SenderReplaced(v5, d, Restart(HalfTaken(s.sender, v5, s.toSender[0]), v5, keys));
  }

  lemma SenderMirrors(v5: bool, s: System)
    requires Inv(v5, s)
    ensures var c := s.sender; DistinctIds(c.outbound) && c.inbound == [] && Mirror(v5, c.outbound, c.inbound, c.store)
  {
  }

  /** The PUBLISH record has gone: what is left beside the finished step is the PUBREL record. */
  lemma HalfIsOrphan(v5: bool, s: System)
    requires Inv(v5, s) && Enabled(s, SenderReads) && HalfTaken(s.sender, v5, s.toSender[0]) != s.sender
    ensures var id, c := s.toSender[0].msgid, Do(s, v5, SenderReads).sender;
            && id !in Ids(c.outbound) && s.sender.inbound == c.inbound == []
            && HalfTaken(s.sender, v5, s.toSender[0]).store == c.store[Key(SentRel, v5, id) := Pubrel(id)]
    ensures s.receiver == Do(s, v5, SenderReads).receiver && s.published == Do(s, v5, SenderReads).published
  {
    var p, c := s.toSender[0], s.sender;
    var out, k := c.outbound, IndexOf(c.outbound, p.msgid);
    var c' := HandlePubcomp(c, p.msgid);
    assert c' == DropOutbound(c, k) && out[k].msgid == p.msgid;
    HalfStore(v5, c, k);
    WithoutMembers(out, k);
    hide Inv, Mirror, Unpersist, HandlePubcomp;
    assert Do(s, v5, SenderReads).sender == c';
  }

  lemma HalfStore(v5: bool, c: Session, k: nat)
    requires Mirror(v5, c.outbound, c.inbound, c.store) && k < |c.outbound| && c.outbound[k].next == PubComp
    ensures var id := c.outbound[k].msgid;
            c.store - {Key(Sent, v5, id)} == Unpersist(c.store, true, id)[Key(SentRel, v5, id) := Pubrel(id)]
  {
    var id := c.outbound[k].msgid;
    assert c.outbound[k] in c.outbound;
    assert Key(SentRel, v5, id) in c.store && c.store[Key(SentRel, v5, id)] == Pubrel(id);
    assert forall x :: x in c.store ==> x.v5 == v5;
  }

  /** Such a record is removed by the restart, and nothing else is lost. */
  lemma OrphanRestored(v5: bool, c: Session, half: Store, id: int, keys: seq<Key>)
    requires DistinctIds(c.outbound) && c.inbound == [] && Mirror(v5, c.outbound, c.inbound, c.store)
    requires id !in Ids(c.outbound) && half == c.store[Key(SentRel, v5, id) := Pubrel(id)] && Lists(keys, half)
    ensures var r := RestorePackets(half, v5, keys);
            && DistinctIds(r.outbound) && r.inbound == [] && r.store == c.store
            && forall m :: m in r.outbound <==> m in c.outbound
  {
    HalfReadable(v5, c, half, id);
    RestoreRebuilds(v5, c.outbound, [], half, keys);
    RestoreExact(v5, c.outbound, [], half, keys);
    NoMembers(RestorePackets(half, v5, keys).inbound);
    OrphanGoes(v5, c, half, id);
  }

  lemma HalfReadable(v5: bool, c: Session, half: Store, id: int)
    requires c.inbound == [] && Mirror(v5, c.outbound, c.inbound, c.store)
    requires id !in Ids(c.outbound) && half == c.store[Key(SentRel, v5, id) := Pubrel(id)]
    ensures Readable(v5, c.outbound, [], half)
    ensures forall m :: m in c.outbound ==> (m.next == PubComp <==> Key(SentRel, v5, m.msgid) in half)
  {
    RecordedReadable(v5, c.outbound, [], c.store);
    assert Recorded(v5, c.outbound, [], half) by {
      forall m | m in c.outbound ensures RecordOf(half, Key(Sent, v5, m.msgid), m) {
        assert RecordOf(c.store, Key(Sent, v5, m.msgid), m);
      }
    }
    RecordedReadable(v5, c.outbound, [], half);
  }

  lemma OrphanGoes(v5: bool, c: Session, half: Store, id: int)
    requires Mirror(v5, c.outbound, c.inbound, c.store)
    requires id !in Ids(c.outbound) && half == c.store[Key(SentRel, v5, id) := Pubrel(id)]
    ensures Remaining(half, v5, half.Keys) == c.store
  {
    forall k | k in half ensures Orphan(half, v5, k) <==> k == Key(SentRel, v5, id) {
      if k.kind == SentRel && k.id != id {
        assert k in c.store && k.id in Ids(c.outbound);
        var m :| m in c.outbound && m.msgid == k.id;
        assert RecordOf(c.store, Key(Sent, v5, m.msgid), m);
      }
    }
    assert Key(SentRel, v5, id) !in c.store;
  }

  // ---- crashes that do no harm

  lemma MoveKeepsInv(v5: bool, s: System, m: Move)
    requires Inv(v5, s) && CanMove(s, v5, m) && !Harmful(s, v5, m)
    ensures Inv(v5, Moved(s, v5, m))
  {
    match m
    case Whole(step) => StepKeepsInv(v5, s, step);
    case ReceiverCrashes(keys) =>
      CrashIsSteps(v5, s, keys);
      CrashLog(v5, s, keys);
    case SenderCrashes(keys) => SenderCrashKeepsInv(v5, s, keys);
  }

  ghost predicate CrashRun(v5: bool, states: seq<System>, moves: seq<Move>) {
    && |states| == |moves| + 1 && states[0] == START
    && forall k :: 0 <= k < |moves| ==>
         CanMove(states[k], v5, moves[k]) && states[k + 1] == Moved(states[k], v5, moves[k])
  }

  lemma {:induction false} CrashRunInv(v5: bool, states: seq<System>, moves: seq<Move>, k: nat)
    requires CrashRun(v5, states, moves) && k < |states|
    requires forall j :: 0 <= j < k ==> !Harmful(states[j], v5, moves[j])
    ensures Inv(v5, states[k])
  {
    hide Inv, Moved, CanMove, Harmful;
    if k == 0 {
      StartInv(v5);
    } else {
      CrashRunInv(v5, states, moves, k - 1);
      assert states[k - 1 + 1] == Moved(states[k - 1], v5, moves[k - 1]);
      MoveKeepsInv(v5, states[k - 1], moves[k - 1]);
    }
  }

  /** Every QoS 2 message has been delivered at most once, and exactly once if the sender no longer has its record. */
  ghost predicate OnceEach(s: System) {
    forall n: nat :: n < |s.published| && s.published[n].qos == 2 ==>
      Count(s.receiver.delivered, n) <= 1 && (!InFlight(s.sender.outbound, n) ==> Count(s.receiver.delivered, n) == 1)
  }

  lemma InvOnceEach(v5: bool, s: System)
    requires Inv(v5, s)
    ensures OnceEach(s)
  {
    forall n: nat | n < |s.published| && s.published[n].qos == 2 ensures Count(s.receiver.delivered, n) <= 1 {
      CountInFlight(v5, s, n);
    }
  }

  /** Exactly-once delivery over every run of whole handlers and of crashes inside them, of either side and any number,
      that avoids the harmful place. */
  lemma ExactlyOnceCrashing(v5: bool, states: seq<System>, moves: seq<Move>, k: nat)
    requires CrashRun(v5, states, moves) && k < |states|
    requires forall j :: 0 <= j < k ==> !Harmful(states[j], v5, moves[j])
    ensures OnceEach(states[k])
  {
    CrashRunInv(v5, states, moves, k);
    InvOnceEach(v5, states[k]);
  }

  // ---- the others: nothing looks at the log

  lemma ReadIgnoresLog(v5: bool, r: Session, p: Packet, log: seq<Entry>)
    requires p.Publish? || p.Pubrel?
    ensures var e, f := ReceiverHandles(r, v5, p), ReceiverHandles(r.(delivered := log), v5, p);
            && r.delivered <= e.s.delivered && f.wire == e.wire
            && f.s == e.s.(delivered := log + e.s.delivered[|r.delivered|..])
  {
  }

  /** Whatever was handed over before, a step does the same and hands over the same. */
  lemma StepIgnoresLog(v5: bool, s: System, step: Step, log: seq<Entry>)
    requires Enabled(s, step)
    ensures Enabled(WithLog(s, log), step)
    ensures var t := Do(s, v5, step);
            && s.receiver.delivered <= t.receiver.delivered
            && Do(WithLog(s, log), v5, step) == WithLog(t, log + t.receiver.delivered[|s.receiver.delivered|..])
  {
    hide RestorePackets, Listing, Assign, Resends, PersistAll, ReceiverHandles, SenderHandles, StartPublish;
    if step.ReceiverReads? {
      ReadIgnoresLog(v5, s.receiver, s.toReceiver[0], log);
    } else {
      assert log + s.receiver.delivered[|s.receiver.delivered|..] == log;
    }
  }

  lemma {:induction false} RunIgnoresLog(v5: bool, s: System, steps: seq<Step>, t: System, log: seq<Entry>)
    requires Goes(v5, s, steps, t)
    ensures s.receiver.delivered <= t.receiver.delivered
    ensures Goes(v5, WithLog(s, log), steps, WithLog(t, log + t.receiver.delivered[|s.receiver.delivered|..]))
    decreases |steps|
  {
    hide Do, Enabled;
    var a := s.receiver.delivered;
    if steps == [] {
      assert log + a[|a|..] == log;
    } else {
      var r := Do(s, v5, steps[0]);
      var b := r.receiver.delivered;
      StepIgnoresLog(v5, s, steps[0], log);
      RunIgnoresLog(v5, r, steps[1..], t, log + b[|a|..]);
      assert log + b[|a|..] + t.receiver.delivered[|b|..] == log + t.receiver.delivered[|a|..];
    }
  }

  lemma {:induction false} CountConcat(a: seq<Entry>, b: seq<Entry>, n: nat)
    ensures Count(a + b, n) == Count(a, n) + Count(b, n)
    decreases |b|
  {
    if b == [] {
      assert a + b == a;
    } else {
      assert (a + b)[..|a + b| - 1] == a + b[..|b| - 1];
      CountConcat(a, b[..|b| - 1], n);
    }
  }

  /** From s and from s with another log the same steps lead to states whose counts differ as they did at the start. */
  lemma SameDifference(v5: bool, s: System, log: seq<Entry>, steps: seq<Step>, t: System, n: nat) returns (u: System)
    requires Goes(v5, s, steps, t)
    ensures Goes(v5, WithLog(s, log), steps, u) && u == WithLog(t, u.receiver.delivered)
    ensures Count(u.receiver.delivered, n) - Count(log, n) ==
            Count(t.receiver.delivered, n) - Count(s.receiver.delivered, n)
  {
    RunIgnoresLog(v5, s, steps, t, log);
    var a, b := s.receiver.delivered, t.receiver.delivered;
    var more := b[|a|..];
    u := WithLog(t, log + more);
    assert b == a + more;
    CountConcat(a, more, n);
    CountConcat(log, more, n);
  }

  /** The message that a harmful crash is in the middle of, and by how much its count is off afterwards. */
  lemma HarmDone(v5: bool, s: System, keys: seq<Key>) returns (n: nat)
    requires Inv(v5, s) && CanMove(s, v5, ReceiverCrashes(keys)) && Harmful(s, v5, ReceiverCrashes(keys))
    ensures n < |s.published| && s.published[n].qos == 2
    ensures var half, whole := HalfHandled(s.receiver, v5, s.toReceiver[0]).delivered,
                               WholeSteps(s, v5, keys).receiver.delivered;
            Count(half, n) == Count(whole, n) + if v5 then -1 else 1
  {
    var p, log := s.toReceiver[0], s.receiver.delivered;
    var e := HarmEntry(v5, s, keys);
    n := e.content.serial;
    CrashLog(v5, s, keys);
    CountAppend(log, e, n);
    hide Inv, WholeSteps, HalfHandled;
  }

  lemma HarmEntry(v5: bool, s: System, keys: seq<Key>) returns (e: Entry)
    requires Inv(v5, s) && CanMove(s, v5, ReceiverCrashes(keys)) && Harmful(s, v5, ReceiverCrashes(keys))
    ensures Genuine(s.published, e) && e.qos == 2
    ensures var p := s.toReceiver[0];
            e == if v5 then Entry(p.content, 2, p.retain)
                 else var m := Find(s.receiver.inbound, p.msgid).m; Entry(m.body, 2, m.retain)
  {
    var p := s.toReceiver[0];
    assert p in s.toReceiver;
    if v5 {
      e := Entry(p.content, 2, p.retain);
    } else {
      var o, r := Find(s.sender.outbound, p.msgid), Find(s.receiver.inbound, p.msgid);
      assert IdInv(v5, o, r, s.toReceiver, s.toSender, p.msgid);
      RelReadInv(v5, o, r, s.toReceiver, s.toSender, p.msgid, Pubcomp(p.msgid));
      FindMember(s.sender.outbound, p.msgid);
      e := Entry(r.m.body, 2, r.m.retain);
    }
  }

  /** After a harmful crash, however the run goes on: in version 5 the message is never delivered, not even when its
      record is gone; in 3.1.1 it has been delivered, and twice when its record is gone. */
  lemma HarmLasts(v5: bool, s: System, keys: seq<Key>, steps: seq<Step>, t: System) returns (n: nat)
    requires Inv(v5, s) && CanMove(s, v5, ReceiverCrashes(keys)) && Harmful(s, v5, ReceiverCrashes(keys))
    requires Goes(v5, Moved(s, v5, ReceiverCrashes(keys)), steps, t)
    ensures n < |s.published| <= |t.published| && t.published[n].qos == 2
    ensures v5 ==> Count(t.receiver.delivered, n) == 0
    ensures !v5 ==> 1 <= Count(t.receiver.delivered, n) <= 2
    ensures !v5 && !InFlight(t.sender.outbound, n) ==> Count(t.receiver.delivered, n) == 2
  {
    var half, ref := Moved(s, v5, ReceiverCrashes(keys)), WholeSteps(s, v5, keys);
    CrashIsSteps(v5, s, keys);
    n := HarmDone(v5, s, keys);
    MorePublished(v5, half, steps, t);
    hide Inv, Do, Moved, WholeSteps, HalfHandled, Harmful;
    var u := SameDifference(v5, half, ref.receiver.delivered, steps, t, n);
    GoesKeepsInv(v5, ref, steps, u);
    InvOnceEach(v5, u);
  }

  /** Such a crash can come with the very first message. */
  lemma HarmReached(v5: bool, call: Step) returns (steps: seq<Step>, s: System, keys: seq<Key>)
    requires call.PublishCall? && call.qos == 2
    ensures Goes(v5, START, steps, s)
    ensures CanMove(s, v5, ReceiverCrashes(keys)) && Harmful(s, v5, ReceiverCrashes(keys))
  {
    keys := [Key(Received, v5, 1)];
    var c := Content(0, call.topic, call.payload);
    assert Ids([]) == {};
    assert Assign(0, {}) == 1;
    s := Do(START, v5, call);
    assert s.toReceiver == [Publish(false, 2, call.retain, 1, c)];
    if v5 {
      steps := [call];
    } else {
      var r := Do(s, v5, ReceiverReads);
      assert r.toSender == [Pubrec(1, 0)];
      var t := Do(r, v5, SenderReads);
      assert t.toReceiver == [Pubrel(1)];
      assert t.receiver.store == map[Key(Received, v5, 1) := s.toReceiver[0]];
      assert t.receiver.inbound == [Message(1, 2, call.retain, PubRel, c)];
      GoesThen(v5, START, [call], s, [ReceiverReads, SenderReads], t) by {
        GoesOne(v5, START, call);
        GoesTwo(v5, s, ReceiverReads, SenderReads);
      }
      steps, s := [call] + [ReceiverReads, SenderReads], t;
    }
    if v5 { GoesOne(v5, START, call); }
  }

  // ---- exactly when

  /** However the run goes on, each QoS 2 message is delivered exactly once. */
  ghost predicate StaysOnce(v5: bool, s: System) {
    forall steps, t :: Goes(v5, s, steps, t) ==> OnceEach(t)
  }

  lemma InvStaysOnce(v5: bool, s: System)
    requires Inv(v5, s)
    ensures StaysOnce(v5, s)
  {
    hide Inv, Goes, OnceEach;
    forall steps, t | Goes(v5, s, steps, t) ensures OnceEach(t) {
      GoesKeepsInv(v5, s, steps, t);
      InvOnceEach(v5, t);
    }
  }

  lemma HarmShows(v5: bool, s: System, keys: seq<Key>)
    requires Inv(v5, s) && CanMove(s, v5, ReceiverCrashes(keys)) && Harmful(s, v5, ReceiverCrashes(keys))
    ensures !StaysOnce(v5, Moved(s, v5, ReceiverCrashes(keys)))
  {
    var half, ref := Moved(s, v5, ReceiverCrashes(keys)), WholeSteps(s, v5, keys);
    CrashIsSteps(v5, s, keys);
    hide Inv, Goes, Moved, WholeSteps, HalfHandled, Harmful, CanMove;
    var steps, u := EventuallyDelivered(v5, ref);
    var t := SameDifference(v5, ref, half.receiver.delivered, steps, u, 0);
    var n := HarmLasts(v5, s, keys, steps, t);
    assert !InFlight(t.sender.outbound, n);
    assert !OnceEach(t);
  }

  /** A move after any run of harmless moves: from there on each QoS 2 message is delivered exactly once, however the
      run goes on, if and only if the move is not a crash in the middle of a first QoS 2 PUBLISH in version 5, or of the
      PUBREL that releases a message in 3.1.1. */
  lemma CrashExact(v5: bool, states: seq<System>, moves: seq<Move>, k: nat)
    requires CrashRun(v5, states, moves) && k < |moves|
    requires forall j :: 0 <= j < k ==> !Harmful(states[j], v5, moves[j])
    ensures StaysOnce(v5, states[k + 1]) <==> !Harmful(states[k], v5, moves[k])
  {
    CrashRunInv(v5, states, moves, k);
    var s, m := states[k], moves[k];
    assert CanMove(s, v5, m) && states[k + 1] == Moved(s, v5, m);
    hide Inv, Moved, CanMove, StaysOnce, CrashRun;
    if Harmful(s, v5, m) {
      HarmShows(v5, s, m.keys);
    } else {
      hide Harmful;
      MoveKeepsInv(v5, s, m);
      InvStaysOnce(v5, Moved(s, v5, m));
    }
  }
}
