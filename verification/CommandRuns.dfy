/** Whole runs of one client's queued commands and their records, with restarts and crashes: exactly when commands come
    back, keep their order and go out as they were accepted. */
module CommandRuns {
  import AsyncQueue
  import opened CommandStore
  import opened Sequences

  // ---- the order in which a restart brings commands back

  /** Numbers go up along the stored commands. */
  ghost predicate NumbersRise(queue: seq<Entry>) {
    forall i, j :: 0 <= i < j < |queue| && Stored(queue[i]) && Stored(queue[j]) ==> queue[i].seqno < queue[j].seqno
  }

  function StoredPart(queue: seq<Entry>): seq<Entry> {
    if queue == [] then [] else (if Stored(queue[0]) then [queue[0]] else []) + StoredPart(queue[1..])
  }

  function SeqnosOf(queue: seq<Entry>): (r: seq<int>)
    ensures |r| == |queue| && forall i :: 0 <= i < |queue| ==> r[i] == queue[i].seqno
  {
    seq(|queue|, i requires 0 <= i < |queue| => queue[i].seqno)
  }

  /** An entry as it comes back from the store. */
  function ReadBack(e: Entry): Entry {
    Entry(e.ticket, e.command, e.seqno, e.seqno, true)
  }

  function AllReadBack(queue: seq<Entry>): (r: seq<Entry>)
    ensures |r| == |queue| && forall i :: 0 <= i < |queue| ==> r[i] == ReadBack(queue[i])
  {
    seq(|queue|, i requires 0 <= i < |queue| => ReadBack(queue[i]))
  }

  lemma {:induction false} PartMembers(queue: seq<Entry>)
    ensures forall e :: e in StoredPart(queue) <==> e in queue && Stored(e)
  {
    if queue != [] {
      PartMembers(queue[1..]);
      assert queue == [queue[0]] + queue[1..];
    }
  }

  lemma {:induction false} PartRises(queue: seq<Entry>)
    ensures AsyncQueue.Rising(SeqnosOf(StoredPart(queue))) <==> NumbersRise(queue)
  {
    if queue != [] {
      var e, rest := queue[0], queue[1..];
      PartRises(rest);
      PartMembers(rest);
      TailRises(queue);
      HeadNumber(e, StoredPart(rest));
      HeadRises(e.seqno, SeqnosOf(StoredPart(rest)));
      if Stored(e) {
        assert StoredPart(queue) == [e] + StoredPart(rest);
        assert (forall f :: f in StoredPart(rest) ==> e.seqno < f.seqno) <==>
               (forall j :: 0 < j < |queue| && Stored(queue[j]) ==> e.seqno < queue[j].seqno) by {
          hide StoredPart, SeqnosOf, NumbersRise;
          MembersByIndex(queue, e.seqno);
        }
      } else {
        assert StoredPart(queue) == StoredPart(rest);
      }
    }
  }

  lemma MembersByIndex(queue: seq<Entry>, n: int)
    requires queue != []
    ensures (forall f :: f in queue[1..] && Stored(f) ==> n < f.seqno) <==>
            (forall j :: 0 < j < |queue| && Stored(queue[j]) ==> n < queue[j].seqno)
  {
    assert forall j :: 0 < j < |queue| ==> queue[j] == queue[1..][j - 1];
    if forall f :: f in queue[1..] && Stored(f) ==> n < f.seqno {
      forall j | 0 < j < |queue| && Stored(queue[j]) ensures n < queue[j].seqno {
        assert queue[1..][j - 1] in queue[1..];
      }
    }
  }

  lemma TailRises(queue: seq<Entry>)
    requires queue != []
    ensures NumbersRise(queue) <==>
            NumbersRise(queue[1..]) &&
            (Stored(queue[0]) ==> forall j :: 0 < j < |queue| && Stored(queue[j]) ==> queue[0].seqno < queue[j].seqno)
  {
    assert forall j :: 0 < j < |queue| ==> queue[j] == queue[1..][j - 1];
    if NumbersRise(queue[1..]) {
      forall i, j | 0 < i < j < |queue| && Stored(queue[i]) && Stored(queue[j])
        ensures queue[i].seqno < queue[j].seqno
      {
        assert queue[1..][i - 1].seqno < queue[1..][j - 1].seqno;
      }
    }
    if NumbersRise(queue) {
      var rest := queue[1..];
      forall i, j | 0 <= i < j < |rest| && Stored(rest[i]) && Stored(rest[j]) ensures rest[i].seqno < rest[j].seqno {
        assert queue[i + 1].seqno < queue[j + 1].seqno;
      }
    }
  }

  lemma RisesFrom(n: int, ns: seq<int>)
    requires AsyncQueue.Rising([n] + ns)
    ensures AsyncQueue.Rising(ns) && forall x :: x in ns ==> n < x
  {
    var all := [n] + ns;
    forall i, j | 0 <= i < j < |ns| ensures ns[i] < ns[j] {
      assert all[i + 1] < all[j + 1];
    }
    forall x | x in ns ensures n < x {
      var i :| 0 <= i < |ns| && ns[i] == x;
      assert all[0] < all[i + 1];
    }
  }

  lemma RisesAbove(n: int, ns: seq<int>)
    requires AsyncQueue.Rising(ns) && forall x :: x in ns ==> n < x
    ensures AsyncQueue.Rising([n] + ns)
  {
    assert forall i :: 0 <= i < |ns| ==> ns[i] in ns;
  }

  lemma HeadRises(n: int, ns: seq<int>)
    ensures AsyncQueue.Rising([n] + ns) <==> AsyncQueue.Rising(ns) && forall x :: x in ns ==> n < x
  {
    hide AsyncQueue.Rising;
    if AsyncQueue.Rising([n] + ns) { RisesFrom(n, ns); }
    if AsyncQueue.Rising(ns) && forall x :: x in ns ==> n < x { RisesAbove(n, ns); }
  }

  lemma HeadNumber(e: Entry, part: seq<Entry>)
    ensures SeqnosOf([e] + part) == [e.seqno] + SeqnosOf(part)
    ensures (forall x :: x in SeqnosOf(part) ==> e.seqno < x) <==> (forall f :: f in part ==> e.seqno < f.seqno)
  {
    var ns := SeqnosOf(part);
    if forall x :: x in ns ==> e.seqno < x {
      forall f | f in part ensures e.seqno < f.seqno {
        var i :| 0 <= i < |part| && part[i] == f;
        assert ns[i] in ns;
      }
    }
    if forall f :: f in part ==> e.seqno < f.seqno {
      forall x | x in ns ensures e.seqno < x {
        var i :| 0 <= i < |ns| && ns[i] == x;
        assert part[i] in part;
      }
    }
  }

  lemma HasNumber(queue: seq<Entry>, n: int)
    ensures n in SeqnosOf(StoredPart(queue)) <==>
            exists k :: 0 <= k < |queue| && Stored(queue[k]) && queue[k].seqno == n
  {
    PartMembers(queue);
    var part := StoredPart(queue);
    var ns := SeqnosOf(part);
    hide StoredPart;
    if n in ns {
      var i :| 0 <= i < |ns| && ns[i] == n;
      assert part[i] in part;
      var k :| 0 <= k < |queue| && queue[k] == part[i];
    }
    if k :| 0 <= k < |queue| && Stored(queue[k]) && queue[k].seqno == n {
      assert queue[k] in part;
      var i :| 0 <= i < |part| && part[i] == queue[k];
      assert ns[i] == n;
    }
  }

  /** The numbers of the records are those of the stored commands. */
  lemma SameNumbers(queue: seq<Entry>, store: map<int, Record>)
    requires Mirrored(queue, store)
    ensures forall n :: n in SeqnosOf(StoredPart(queue)) <==> n in SortedKeys(store.Keys)
  {
    forall n ensures n in SeqnosOf(StoredPart(queue)) <==> n in store {
      HasNumber(queue, n);
      NumberInStore(queue, store, n);
    }
  }

  lemma SameKeys(queue: seq<Entry>, store: map<int, Record>)
    requires Mirrored(queue, store) && NumbersRise(queue)
    ensures SortedKeys(store.Keys) == SeqnosOf(StoredPart(queue))
  {
    PartRises(queue);
    SameNumbers(queue, store);
    hide StoredPart, SeqnosOf, AsyncQueue.Rising, NumbersRise, Mirrored;
    AsyncQueue.RisingSame(SortedKeys(store.Keys), SeqnosOf(StoredPart(queue)));
  }

  lemma BackInOrder(queue: seq<Entry>, store: map<int, Record>)
    requires Mirrored(queue, store) && NumbersRise(queue)
    ensures FromRecords(store) == AllReadBack(StoredPart(queue))
  {
    SameKeys(queue, store);
    PartMembers(queue);
    var part, q := StoredPart(queue), FromRecords(store);
    hide StoredPart, SortedKeys, FromRecords, NumbersRise, AsyncQueue.Rising;
    forall i | 0 <= i < |q| ensures q[i] == ReadBack(part[i]) {
      RestoredAt(store, i);
      assert part[i] in part;
      var k :| 0 <= k < |queue| && queue[k] == part[i];
      assert HasRecord(queue[k], store);
    }
  }

  lemma InOrderOnlyIf(queue: seq<Entry>, store: map<int, Record>)
    requires FromRecords(store) == AllReadBack(StoredPart(queue))
    ensures NumbersRise(queue)
  {
    PartRises(queue);
    var part, keys, q := StoredPart(queue), SortedKeys(store.Keys), FromRecords(store);
    var ns := SeqnosOf(part);
    hide StoredPart, FromRecords, NumbersRise;
    forall i | 0 <= i < |ns| ensures ns[i] == keys[i] {
      RestoredAt(store, i);
      assert q[i] == ReadBack(part[i]);
    }
    assert ns == keys;
  }

  /** A restart brings back the stored commands just as they were queued exactly if their numbers go up. */
  lemma RestoreExact(s: State)
    requires Inv(s)
    ensures Restarted(s, true).queue == AllReadBack(StoredPart(s.queue)) <==> NumbersRise(s.queue)
  {
    hide Counted, EntriesOk, NumbersDiffer, OneFate, SentOnce, NumbersRise, Mirrored, StoredPart, FromRecords, MarkAll,
      SortedKeys, AsyncQueue.Rising, AllReadBack;
    if NumbersRise(s.queue) {
      BackInOrder(s.queue, s.store);
    } else if FromRecords(s.store) == AllReadBack(StoredPart(s.queue)) {
      InOrderOnlyIf(s.queue, s.store);
    }
  }

  /** How often the counter had been reset when a command got its number, since the client was created. */
  function Lap(e: Entry): int {
    e.serial / PERSISTENCE_SEQNO_LIMIT
  }

  lemma LapOrder(a: int, b: int)
    requires 0 <= a < b < a + PERSISTENCE_SEQNO_LIMIT
    ensures a % PERSISTENCE_SEQNO_LIMIT < b % PERSISTENCE_SEQNO_LIMIT <==>
            a / PERSISTENCE_SEQNO_LIMIT == b / PERSISTENCE_SEQNO_LIMIT
  {
  }

  /** Within one lap of numbers they go up exactly if the counter was not reset between two of the stored commands. */
  lemma RisesExact(s: State)
    requires Inv(s)
    requires forall i, j :: 0 <= i < j < |s.queue| && Stored(s.queue[i]) && Stored(s.queue[j]) ==>
      s.queue[j].serial - s.queue[i].serial < PERSISTENCE_SEQNO_LIMIT
    ensures NumbersRise(s.queue) <==>
            forall i, j :: 0 <= i < j < |s.queue| && Stored(s.queue[i]) && Stored(s.queue[j]) ==>
              Lap(s.queue[i]) == Lap(s.queue[j])
  {
    hide OneFate, SentOnce, Mirrored, Counted;
    var q := s.queue;
    forall i, j | 0 <= i < j < |q| && Stored(q[i]) && Stored(q[j])
      ensures q[i].seqno < q[j].seqno <==> Lap(q[i]) == Lap(q[j])
    {
      assert EntryOk(q[i], s.total, s.accepted) && EntryOk(q[j], s.total, s.accepted);
      LapOrder(q[i].serial, q[j].serial);
    }
  }

  lemma LapBehind(total: int, serial: int)
    requires 0 <= serial <= total && total + 1 - serial <= PERSISTENCE_SEQNO_LIMIT
    ensures (total + 1) % PERSISTENCE_SEQNO_LIMIT == serial % PERSISTENCE_SEQNO_LIMIT <==>
            serial == total + 1 - PERSISTENCE_SEQNO_LIMIT
  {
  }

  lemma TakenNumber(s: State, e: Entry)
    requires Counted(s) && EntryOk(e, s.total, s.accepted) && Stored(e)
    requires s.total + 1 - e.serial <= PERSISTENCE_SEQNO_LIMIT
    ensures e.seqno == NextNumber(s.seqno) <==> e.serial == s.total + 1 - PERSISTENCE_SEQNO_LIMIT
  {
    NextCounted(s.seqno, s.total);
    hide NextNumber;
    LapBehind(s.total, e.serial);
  }

  lemma NumberInStore(queue: seq<Entry>, store: map<int, Record>, n: int)
    requires Mirrored(queue, store)
    ensures n in store <==> exists k :: 0 <= k < |queue| && Stored(queue[k]) && queue[k].seqno == n
  {
  }

  /** Within one lap a number is taken exactly if the command numbered a whole lap ago is still queued. */
  lemma ClashExact(s: State, c: AsyncQueue.Command, qos0: bool)
    requires Inv(s) && Persisted(c, qos0)
    requires forall k :: 0 <= k < |s.queue| && Stored(s.queue[k]) ==>
      s.total + 1 - s.queue[k].serial <= PERSISTENCE_SEQNO_LIMIT
    ensures !FreeNumber(s, c, qos0) <==>
            exists k :: 0 <= k < |s.queue| && Stored(s.queue[k]) &&
              s.queue[k].serial == s.total + 1 - PERSISTENCE_SEQNO_LIMIT
  {
    hide OneFate, SentOnce, NextNumber, Mirrored, NumbersDiffer, Counted, Stored, EntryOk, Persisted;
    var n, q := NextNumber(s.seqno), s.queue;
    NumberInStore(q, s.store, n);
    forall k | 0 <= k < |q| && Stored(q[k])
      ensures q[k].seqno == n <==> q[k].serial == s.total + 1 - PERSISTENCE_SEQNO_LIMIT
    {
      TakenNumber(s, q[k]);
    }
  }

  // ---- order over whole runs

  /** What went out, and then what is queued, is in the order in which it was accepted. */
  ghost predicate InOrder(sent: seq<int>, queue: seq<Entry>) {
    && AsyncQueue.Rising(sent)
    && (forall i, k :: 0 <= i < |sent| && 0 <= k < |queue| && queue[k].ticket >= 0 ==> sent[i] < queue[k].ticket)
    && (forall j, k :: 0 <= j < k < |queue| && queue[j].ticket >= 0 && queue[k].ticket >= 0 ==>
          queue[j].ticket < queue[k].ticket)
  }

  /** Where a step restarts the client, the numbers of the stored commands go up. */
  ghost predicate Straight(s: State, step: Step, opts: Settings)
    requires Enabled(s, step)
  {
    match step
    case Restart(restores) => restores ==> NumbersRise(s.queue)
    case CrashInAdd(_) => NumbersRise(Before(s, step, opts).queue)
    case CrashInDispatch => NumbersRise(Before(s, step, opts).queue)
    case _ => true
  }

  lemma PutInOrder(s: State, c: AsyncQueue.Command, qos0: bool)
    requires Inv(s) && InOrder(s.sent, s.queue)
    ensures InOrder(s.sent, Put(s, c, qos0).queue)
  {
    hide Mirrored, OneFate, NumbersDiffer, Persisted, Stored;
    assert forall k :: 0 <= k < |s.queue| ==> EntryOk(s.queue[k], s.total, s.accepted);
  }

  lemma WithoutInOrder(sent: seq<int>, queue: seq<Entry>, k: nat)
    requires InOrder(sent, queue) && k < |queue|
    ensures InOrder(sent, Without(queue, k))
  {
    var q := Without(queue, k);
    assert forall j :: 0 <= j < |q| ==> q[j] == queue[if j < k then j else j + 1];
  }

  lemma SentInOrder(sent: seq<int>, queue: seq<Entry>)
    requires InOrder(sent, queue) && queue != [] && queue[0].ticket >= 0
    ensures InOrder(sent + [queue[0].ticket], Without(queue, 0))
  {
    var q := Without(queue, 0);
    assert forall j :: 0 <= j < |q| ==> q[j] == queue[j + 1];
  }

  lemma UrgedInOrder(sent: seq<int>, queue: seq<Entry>, e: Entry)
    requires InOrder(sent, queue) && e.ticket < 0
    ensures InOrder(sent, [e] + queue)
  {
  }

  /** Restored commands are those of the queue, by number. */
  lemma FromQueue(s: State, i: nat) returns (k: nat)
    requires Inv(s) && i < |FromRecords(s.store)|
    ensures k < |s.queue| && Stored(s.queue[k]) && s.queue[k].ticket == FromRecords(s.store)[i].ticket >= 0
    ensures s.queue[k].seqno == SortedKeys(s.store.Keys)[i]
  {
    hide OneFate, SentOnce, NumbersDiffer, Counted, FromRecords, SortedKeys;
    RestoredAt(s.store, i);
    k := RecordIsGood(s.queue, s.store, s.total, s.accepted, SortedKeys(s.store.Keys)[i]);
  }

  lemma RestoredInOrder(s: State)
    requires Inv(s) && InOrder(s.sent, s.queue) && NumbersRise(s.queue)
    ensures InOrder(s.sent, FromRecords(s.store))
  {
    var q, keys := FromRecords(s.store), SortedKeys(s.store.Keys);
    hide Inv, FromRecords, SortedKeys;
    forall i, j | 0 <= i < |s.sent| && 0 <= j < |q| && q[j].ticket >= 0 ensures s.sent[i] < q[j].ticket {
      var k := FromQueue(s, j);
    }
    forall i, j | 0 <= i < j < |q| ensures q[i].ticket < q[j].ticket {
      var a := FromQueue(s, i);
      var b := FromQueue(s, j);
      assert keys[i] < keys[j];
      assert a < b;
    }
  }

  lemma Falls(s: State) returns (i: nat, j: nat)
    requires Inv(s) && !NumbersRise(s.queue)
    ensures i < j < |s.queue| && Stored(s.queue[i]) && Stored(s.queue[j]) && s.queue[i].seqno > s.queue[j].seqno
    ensures s.queue[i].ticket >= 0 && s.queue[j].ticket >= 0
  {
    hide EntriesOk, Counted, OneFate, SentOnce;
    var a, b :| 0 <= a < b < |s.queue| && Stored(s.queue[a]) && Stored(s.queue[b]) &&
                s.queue[a].seqno >= s.queue[b].seqno;
    i, j := a, b;
  }

  lemma RestoredOutOfOrder(s: State)
    requires Inv(s) && InOrder(s.sent, s.queue) && !NumbersRise(s.queue)
    ensures !InOrder(s.sent, FromRecords(s.store))
  {
    var i, j := Falls(s);
    assert s.queue[i].ticket < s.queue[j].ticket;
    assert Mirrored(s.queue, s.store);
    hide Inv, NumbersRise, Mirrored, FromRecords, InOrder;
    var a := FoundAgain(s.queue, s.store, i);
    var b := FoundAgain(s.queue, s.store, j);
    ByNumber(s.store, b, a);
    Swapped(s.sent, FromRecords(s.store), b, a);
  }

  lemma ByNumber(store: map<int, Record>, a: nat, b: nat)
    requires a < |FromRecords(store)| && b < |FromRecords(store)|
    requires FromRecords(store)[a].seqno < FromRecords(store)[b].seqno
    ensures a < b
  {
    hide FromRecords, SortedKeys;
    RestoredAt(store, a);
    RestoredAt(store, b);
  }

  lemma Swapped(sent: seq<int>, queue: seq<Entry>, a: nat, b: nat)
    requires a < b < |queue| && queue[a].ticket > queue[b].ticket >= 0
    ensures !InOrder(sent, queue)
  {
  }

  lemma RestoredExactly(s: State)
    requires Inv(s) && InOrder(s.sent, s.queue)
    ensures InOrder(s.sent, FromRecords(s.store)) <==> NumbersRise(s.queue)
  {
    hide Inv, InOrder, NumbersRise, FromRecords;
    if NumbersRise(s.queue) { RestoredInOrder(s); } else { RestoredOutOfOrder(s); }
  }

  /** A safe step keeps the order exactly if, where it restarts the client, the numbers go up. */
  lemma StepOrderExact(s: State, step: Step, opts: Settings)
    requires Inv(s) && InOrder(s.sent, s.queue) && Enabled(s, step) && Safe(s, step, opts)
    ensures var t := Do(s, step, opts); InOrder(t.sent, t.queue) <==> Straight(s, step, opts)
  {
    hide Inv, InOrder, NumbersRise, FromRecords, FreeNumber, FreeZero, Displaces, Put, MarkAll, Mark, BodyOf, Without;
    match step
    case Add(c) =>
      PutInOrder(s, c, opts.qos0);
      var p := Put(s, c, opts.qos0);
      PutSent(s, c, opts.qos0);
      var k := FirstPublishAt(p.queue);
      if Displaces(s, c, opts) && k < |p.queue| { WithoutInOrder(p.sent, p.queue, k); }
    case Urge(c) => UrgedInOrder(s.sent, s.queue, Entry(-1, c, 0, -1, false));
    case Dispatch =>
      if s.queue[0].ticket >= 0 { SentInOrder(s.sent, s.queue); } else { WithoutInOrder(s.sent, s.queue, 0); }
    case Restart(restores) =>
      if restores { RestoredExactly(s); } else { EmptyInOrder(s.sent, s.queue); }
    case CrashInAdd(c) =>
      PutKeepsInv(s, c, opts.qos0);
      PutInOrder(s, c, opts.qos0);
      PutSent(s, c, opts.qos0);
      RestoredExactly(Put(s, c, opts.qos0));
    case CrashInDispatch =>
      RemoveKeepsInv(s, 0, Stopped);
      WithoutInOrder(s.sent, s.queue, 0);
      RestoredExactly(Remove(s, 0, Stopped));
  }

  lemma PutSent(s: State, c: AsyncQueue.Command, qos0: bool)
    ensures Put(s, c, qos0).sent == s.sent
  {
  }

  lemma EmptyInOrder(sent: seq<int>, queue: seq<Entry>)
    requires InOrder(sent, queue)
    ensures InOrder(sent, [])
  {
  }

  // ---- runs

  ghost predicate Run(states: seq<State>, steps: seq<Step>, opts: Settings) {
    && |states| == |steps| + 1 && states[0] == START
    && forall i :: 0 <= i < |steps| ==> Enabled(states[i], steps[i]) && states[i + 1] == Do(states[i], steps[i], opts)
  }

  lemma StartInv()
    ensures Inv(START) && InOrder(START.sent, START.queue)
  {
  }

  lemma {:induction false} SafeRun(states: seq<State>, steps: seq<Step>, opts: Settings, k: nat)
    requires Run(states, steps, opts) && k <= |steps|
    requires forall i :: 0 <= i < k ==> Safe(states[i], steps[i], opts)
    ensures Inv(states[k])
  {
    hide Inv, Safe, Do, Enabled;
    if k == 0 {
      StartInv();
    } else {
      SafeRun(states, steps, opts, k - 1);
      StepKeepsInv(states[k - 1], steps[k - 1], opts);
    }
  }

  ghost predicate Sound(s: State) {
    Intact(s) && InOrder(s.sent, s.queue)
  }

  /** Over every run of accepted commands, dispatches, restarts and crashes: each waiting command is there, with its own
      record if it was stored, and nothing has overtaken or will overtake anything, exactly if every step is safe and
      every restart finds numbers that go up. */
  lemma {:induction false} RunExact(states: seq<State>, steps: seq<Step>, opts: Settings, k: nat)
    requires Run(states, steps, opts) && k <= |steps|
    ensures (forall i :: 0 <= i <= k ==> Sound(states[i])) <==>
            (forall i :: 0 <= i < k ==> Safe(states[i], steps[i], opts) && Straight(states[i], steps[i], opts))
  {
    hide Inv, Safe, Do, Enabled, Straight, Intact, InOrder;
    if k == 0 {
      StartInv();
      InvIntact(START);
    } else {
      RunExact(states, steps, opts, k - 1);
      if forall i :: 0 <= i < k - 1 ==> Safe(states[i], steps[i], opts) && Straight(states[i], steps[i], opts) {
        SafeRun(states, steps, opts, k - 1);
        var s := states[k - 1];
        assert Sound(s);
        SafeExact(s, steps[k - 1], opts);
        if Safe(s, steps[k - 1], opts) { StepOrderExact(s, steps[k - 1], opts); }
        assert states[k] == Do(s, steps[k - 1], opts);
      }
    }
  }

  /** What a sound run means for the application: whatever went out went out once, in the order accepted and as it was
      accepted, across all restarts; and if nothing was displaced, unstored, deleted or cut short, it is all that is not
      queued any more. */
  lemma SentAsAccepted(states: seq<State>, steps: seq<Step>, opts: Settings, k: nat)
    requires Run(states, steps, opts) && k <= |steps|
    requires forall i :: 0 <= i < k ==> Safe(states[i], steps[i], opts) && Straight(states[i], steps[i], opts)
    ensures var s := states[k];
            && AsyncQueue.Rising(s.sent) && |s.fate| == |s.accepted|
            && (forall i :: 0 <= i < |s.sent| ==>
                  0 <= s.sent[i] < |s.accepted| && s.fate[s.sent[i]] == Sent(Body(s.accepted[s.sent[i]])))
            && ((forall t :: 0 <= t < |s.fate| ==> s.fate[t].Sent? || s.fate[t].Waiting?) && s.queue == [] ==>
                  s.sent == AsyncQueue.All(|s.accepted|))
  {
    RunExact(states, steps, opts, k);
    SafeRun(states, steps, opts, k);
    assert Sound(states[k]);
    var s := states[k];
    hide Run, Safe, Straight, Intact, Counted, EntriesOk, NumbersDiffer, Mirrored;
    var all := AsyncQueue.All(|s.accepted|);
    if (forall t :: 0 <= t < |s.fate| ==> s.fate[t].Sent? || s.fate[t].Waiting?) && s.queue == [] {
      forall x ensures x in s.sent <==> x in all {
        if 0 <= x < |all| { assert all[x] == x; }
      }
      AsyncQueue.RisingSame(s.sent, all);
    }
  }

  // ---- which commands have records

  /** Just the commands that call for a record have one, or had one when they left the queue; all of them were accepted
      as commands that are not urgent. */
  ghost predicate Backed(queue: seq<Entry>, fate: seq<Fate>, accepted: seq<AsyncQueue.Command>, qos0: bool) {
    && (forall k :: 0 <= k < |queue| && queue[k].ticket >= 0 ==>
          (Stored(queue[k]) <==> Persisted(queue[k].command, qos0)))
    && (forall t :: 0 <= t < |fate| && t < |accepted| && fate[t].NotStored? ==> !Persisted(accepted[t], qos0))
    && (forall t :: 0 <= t < |accepted| ==> !AsyncQueue.Urgent(accepted[t]))
  }

  lemma PutBacked(s: State, c: AsyncQueue.Command, qos0: bool)
    requires Inv(s) && Backed(s.queue, s.fate, s.accepted, qos0) && !AsyncQueue.Urgent(c)
    ensures var p := Put(s, c, qos0); Backed(p.queue, p.fate, p.accepted, qos0)
  {
    hide Persisted, TakesNumber, NextNumber, Mirrored, OneFate, NumbersDiffer, EntriesOk;
  }

  lemma RemoveBacked(s: State, k: nat, f: Fate, qos0: bool)
    requires Inv(s) && Backed(s.queue, s.fate, s.accepted, qos0) && k < |s.queue| && !f.NotStored?
    ensures var p := Remove(s, k, f); Backed(p.queue, p.fate, p.accepted, qos0)
  {
    var q := Without(s.queue, k);
    assert forall j :: 0 <= j < |q| ==> q[j] == s.queue[if j < k then j else j + 1];
    hide Persisted, Mirrored, OneFate, NumbersDiffer, EntriesOk;
  }

  lemma UnstoredAre(s: State, qos0: bool, t: int)
    requires Inv(s) && Backed(s.queue, s.fate, s.accepted, qos0) && 0 <= t < |s.accepted| && t in Unstored(s.queue)
    ensures !Persisted(s.accepted[t], qos0)
  {
    var k :| 0 <= k < |s.queue| && !Stored(s.queue[k]) && s.queue[k].ticket == t;
    assert EntryOk(s.queue[k], s.total, s.accepted);
  }

  lemma RestartedBacked(s: State, restores: bool, qos0: bool)
    requires Inv(s) && Backed(s.queue, s.fate, s.accepted, qos0)
    ensures var r := Restarted(s, restores); Backed(r.queue, r.fate, r.accepted, qos0)
  {
    var r := Restarted(s, restores);
    var ts := if restores then Unstored(s.queue) else Tickets(s.queue);
    assert |s.fate| == |s.accepted| && r.accepted == s.accepted;
    assert r.fate == MarkAll(s.fate, ts, if restores then NotStored else Deleted);
    assert r.queue == if restores then FromRecords(s.store) else [];
    hide Inv, Persisted, Stored, FromRecords, Restarted, MarkAll, Unstored, Tickets, Backed;
    if restores {
      forall t | 0 <= t < |s.accepted| && t in ts ensures !Persisted(s.accepted[t], qos0) {
        UnstoredAre(s, qos0, t);
      }
      forall i | 0 <= i < |r.queue| ensures Stored(r.queue[i]) && Persisted(r.queue[i].command, qos0) {
        StoredIs(s, qos0, i);
      }
    }
    MarkedBacked(s.queue, s.fate, s.accepted, qos0, r.queue, ts, if restores then NotStored else Deleted);
  }

  lemma StoredIs(s: State, qos0: bool, i: nat)
    requires Inv(s) && Backed(s.queue, s.fate, s.accepted, qos0) && i < |FromRecords(s.store)|
    ensures var e := FromRecords(s.store)[i]; Stored(e) && Persisted(e.command, qos0)
  {
    hide Inv, Persisted, FromRecords, Stored;
    var k := CommandBack(s, i);
  }

  lemma MarkedBacked(queue: seq<Entry>, fate: seq<Fate>, accepted: seq<AsyncQueue.Command>, qos0: bool,
                     back: seq<Entry>, ts: set<int>, f: Fate)
    requires Backed(queue, fate, accepted, qos0) && |fate| == |accepted|
    requires f.NotStored? ==> forall t :: 0 <= t < |accepted| && t in ts ==> !Persisted(accepted[t], qos0)
    requires forall i :: 0 <= i < |back| ==> Stored(back[i]) && Persisted(back[i].command, qos0)
    ensures Backed(back, MarkAll(fate, ts, f), accepted, qos0)
  {
    hide Persisted, Stored, MarkAll;
  }

  lemma StepBacked(s: State, step: Step, opts: Settings)
    requires Inv(s) && Enabled(s, step) && Safe(s, step, opts) && Backed(s.queue, s.fate, s.accepted, opts.qos0)
    ensures var t := Do(s, step, opts); Backed(t.queue, t.fate, t.accepted, opts.qos0)
  {
    hide Inv, Backed, Put, Remove, Restarted, FreeNumber, FreeZero, Displaces;
    match step
    case Add(c) =>
      PutKeepsInv(s, c, opts.qos0);
      PutBacked(s, c, opts.qos0);
      var p := Put(s, c, opts.qos0);
      var k := FirstPublishAt(p.queue);
      if Displaces(s, c, opts) && k < |p.queue| { RemoveBacked(p, k, Displaced, opts.qos0); }
    case Urge(c) => UrgedBacked(s, c, opts.qos0);
    case Dispatch => RemoveBacked(s, 0, Sent(BodyOf(s, s.queue[0])), opts.qos0);
    case Restart(restores) => RestartedBacked(s, restores, opts.qos0);
    case CrashInAdd(c) =>
      PutKeepsInv(s, c, opts.qos0);
      PutBacked(s, c, opts.qos0);
      RestartedBacked(Put(s, c, opts.qos0), true, opts.qos0);
    case CrashInDispatch =>
      RemoveKeepsInv(s, 0, Stopped);
      RemoveBacked(s, 0, Stopped, opts.qos0);
      RestartedBacked(Remove(s, 0, Stopped), true, opts.qos0);
  }

  lemma UrgedBacked(s: State, c: AsyncQueue.Command, qos0: bool)
    requires Backed(s.queue, s.fate, s.accepted, qos0)
    ensures var t := Urged(s, c); Backed(t.queue, t.fate, t.accepted, qos0)
  {
  }

  lemma {:induction false} RunBacked(states: seq<State>, steps: seq<Step>, opts: Settings, k: nat)
    requires Run(states, steps, opts) && k <= |steps|
    requires forall i :: 0 <= i < k ==> Safe(states[i], steps[i], opts)
    ensures Inv(states[k]) && Backed(states[k].queue, states[k].fate, states[k].accepted, opts.qos0)
  {
    hide Inv, Safe, Do, Enabled, Backed;
    SafeRun(states, steps, opts, k);
    if k == 0 {
      assert Backed([], [], [], opts.qos0) by { NothingBacked(opts.qos0); }
    } else {
      RunBacked(states, steps, opts, k - 1);
      StepBacked(states[k - 1], steps[k - 1], opts);
    }
  }

  lemma NothingBacked(qos0: bool)
    ensures Backed([], [], [], qos0)
  {
  }

  /** Over every run of safe steps, a command that waits and is a request, a publish with QoS 1 or 2, or one with QoS 0
      under create options that say so, has its record, and is queued as it was accepted after the next restart. */
  lemma RequestsSurvive(states: seq<State>, steps: seq<Step>, opts: Settings, k: nat, t: nat)
    requires Run(states, steps, opts) && k <= |steps| && t < |states[k].accepted| && t < |states[k].fate|
    requires forall i :: 0 <= i < k ==> Safe(states[i], steps[i], opts)
    requires states[k].fate[t].Waiting?
    requires var c := states[k].accepted[t];
             c.Subscribe? || c.Unsubscribe? || (c.Publish? && (c.qos != 0 || opts.qos0))
    ensures var s, back := states[k], Restarted(states[k], true).queue;
            && (exists n :: n in s.store && s.store[n] == Record(t, s.accepted[t]))
            && exists i :: 0 <= i < |back| && back[i].ticket == t && back[i].command == s.accepted[t]
  {
    var s := states[k];
    RunBacked(states, steps, opts, k);
    assert Persisted(s.accepted[t], opts.qos0);
    hide Inv, Backed, Persisted, Restarted, Run, Safe;
    var j := WaitingStored(s, opts.qos0, t);
    var i := QueuedAgain(s, j);
  }

  lemma WaitingStored(s: State, qos0: bool, t: nat) returns (j: nat)
    requires Inv(s) && Backed(s.queue, s.fate, s.accepted, qos0) && t < |s.accepted| && t < |s.fate|
    requires s.fate[t].Waiting? && Persisted(s.accepted[t], qos0)
    ensures j < |s.queue| && Stored(s.queue[j]) && s.queue[j].ticket == t && s.queue[j].command == s.accepted[t]
    ensures s.queue[j].seqno in s.store && s.store[s.queue[j].seqno] == Record(t, s.accepted[t])
  {
    hide NumbersDiffer, SentOnce, Persisted;
    j :| 0 <= j < |s.queue| && s.queue[j].ticket == t;
    assert EntryOk(s.queue[j], s.total, s.accepted);
    assert HasRecord(s.queue[j], s.store);
  }

  lemma QueuedAgain(s: State, j: nat) returns (i: nat)
    requires Inv(s) && j < |s.queue| && Stored(s.queue[j])
    ensures var back := Restarted(s, true).queue;
            i < |back| && back[i].ticket == s.queue[j].ticket && back[i].command == s.queue[j].command
  {
    OnlyRecord(s, j);
    assert Mirrored(s.queue, s.store);
    hide FromRecords, SortedKeys, Mirrored;
    i := FoundAgain(s.queue, s.store, j);
    hide Inv;
    var a := CommandBack(s, i);
    assert a == j;
  }

  /** And all that a restart with restoreMessages on ever finds without a record are disconnects of the application and,
      unless the create options say otherwise, publishes with QoS 0; nor is there ever a record of one of these. */
  lemma NotStoredExactly(states: seq<State>, steps: seq<Step>, opts: Settings, k: nat)
    requires Run(states, steps, opts) && k <= |steps|
    requires forall i :: 0 <= i < k ==> Safe(states[i], steps[i], opts)
    ensures var s := states[k];
            && |s.fate| == |s.accepted|
            && (forall t :: 0 <= t < |s.fate| && s.fate[t].NotStored? ==>
                  var c := s.accepted[t]; c == AsyncQueue.Disconnect(false) || (c.Publish? && c.qos == 0 && !opts.qos0))
            && (forall n :: n in s.store ==>
                  var c := s.store[n].command;
                  c.Subscribe? || c.Unsubscribe? || (c.Publish? && (c.qos != 0 || opts.qos0)))
  {
    var s := states[k];
    RunBacked(states, steps, opts, k);
    forall n | n in s.store ensures Persisted(s.store[n].command, opts.qos0) {
      var j := StoredUnder(s, n);
      OnlyRecord(s, j);
    }
    hide Inv;
  }

  // ---- before the first reset

  /** The counter is not reset by this step. */
  predicate NoReset(s: State, step: Step, opts: Settings) {
    match step
    case Add(c) => TakesNumber(c, opts.qos0) ==> NextNumber(s.seqno) != 0
    case CrashInAdd(c) => TakesNumber(c, opts.qos0) ==> NextNumber(s.seqno) != 0
    case _ => true
  }

  ghost predicate FirstLap(s: State) {
    && Inv(s) && s.total == s.seqno && forall n :: n in s.store ==> 1 <= n <= s.seqno
  }

  lemma LapRises(s: State)
    requires Inv(s) && s.total < PERSISTENCE_SEQNO_LIMIT
    ensures NumbersRise(s.queue)
  {
    hide Mirrored, OneFate, SentOnce;
    assert forall k :: 0 <= k < |s.queue| ==> EntryOk(s.queue[k], s.total, s.accepted);
    forall k | 0 <= k < |s.queue| && Stored(s.queue[k]) ensures s.queue[k].seqno == s.queue[k].serial {
    }
  }

  lemma GreatestBelow(store: map<int, Record>, n: int)
    requires n >= 0 && forall m :: m in store ==> m <= n
    ensures Greatest(store) <= n && forall m :: m in store ==> m <= Greatest(store)
  {
    var keys := SortedKeys(store.Keys);
    if keys != [] { assert keys[|keys| - 1] in keys; }
    forall m | m in store ensures m <= Greatest(store) {
      assert m in keys;
      var i :| 0 <= i < |keys| && keys[i] == m;
    }
  }

  lemma LapPut(s: State, c: AsyncQueue.Command, qos0: bool)
    requires FirstLap(s) && (TakesNumber(c, qos0) ==> NextNumber(s.seqno) != 0)
    ensures FreeNumber(s, c, qos0) && FirstLap(Put(s, c, qos0))
  {
    assert FreeNumber(s, c, qos0);
    PutKeepsInv(s, c, qos0);
    hide Inv;
  }

  lemma LapRemove(s: State, k: nat, f: Fate)
    requires FirstLap(s) && k < |s.queue| && !f.Waiting? && !f.Sent?
    ensures FreeZero(s, k) && FirstLap(Remove(s, k, f))
  {
    assert FreeZero(s, k);
    RemoveKeepsInv(s, k, f);
    hide Inv;
  }

  lemma LapTakenOut(s: State)
    requires FirstLap(s) && s.queue != []
    ensures FreeZero(s, 0) && FirstLap(TakenOut(s))
  {
    assert FreeZero(s, 0);
    TakenOutKeepsInv(s);
    hide Inv;
  }

  lemma LapRestored(s: State)
    requires FirstLap(s)
    ensures NumbersRise(s.queue) && FirstLap(Restarted(s, true))
  {
    RestoredKeepsInv(s);
    assert s.total < PERSISTENCE_SEQNO_LIMIT && s.seqno >= 0;
    LapRises(s);
    hide Inv, Greatest;
    GreatestBelow(s.store, s.seqno);
  }

  lemma FirstLapStep(s: State, step: Step, opts: Settings)
    requires FirstLap(s) && Enabled(s, step) && NoReset(s, step, opts)
    ensures Safe(s, step, opts) && Straight(s, step, opts) && FirstLap(Do(s, step, opts))
  {
    hide FirstLap, NumbersRise, Put, Remove, TakenOut, FreeNumber, FreeZero, Displaces, FirstPublishAt, Restarted,
      NextNumber, TakesNumber;
    match step
    case Add(c) =>
      var p := Put(s, c, opts.qos0);
      LapPut(s, c, opts.qos0);
      if FirstPublishAt(p.queue) < |p.queue| { LapRemove(p, FirstPublishAt(p.queue), Displaced); }
    case Urge(c) => LapUrged(s, c);
    case Dispatch => LapTakenOut(s);
    case Restart(restores) =>
      if restores { LapRestored(s); } else { LapDeleted(s); }
    case CrashInAdd(c) =>
      LapPut(s, c, opts.qos0);
      LapRestored(Put(s, c, opts.qos0));
    case CrashInDispatch =>
      LapRemove(s, 0, Stopped);
      LapRestored(Remove(s, 0, Stopped));
  }

  lemma LapUrged(s: State, c: AsyncQueue.Command)
    requires FirstLap(s) && AsyncQueue.Urgent(c)
    ensures FirstLap(Urged(s, c))
  {
    UrgedKeepsInv(s, c);
    hide Inv;
  }

  lemma LapDeleted(s: State)
    requires FirstLap(s)
    ensures FirstLap(Restarted(s, false))
  {
    DeletedKeepsInv(s);
    hide Inv;
  }

  /** As long as the counter is not reset, every step is safe and every restart keeps the order. */
  lemma {:induction false} BeforeReset(states: seq<State>, steps: seq<Step>, opts: Settings, k: nat)
    requires Run(states, steps, opts) && k <= |steps|
    requires forall i :: 0 <= i < k ==> NoReset(states[i], steps[i], opts)
    ensures FirstLap(states[k])
    ensures forall i :: 0 <= i < k ==> Safe(states[i], steps[i], opts) && Straight(states[i], steps[i], opts)
  {
    hide Safe, Straight, NoReset, Inv, Do, Enabled;
    if k == 0 {
      StartInv();
    } else {
      BeforeReset(states, steps, opts, k - 1);
      FirstLapStep(states[k - 1], steps[k - 1], opts);
    }
  }

  // ---- crashes inside an operation

  /** Where a crash stops MQTTAsync_addCommand: the new record is written before that of the displaced command goes. */
  datatype AddPoint = BeforeRecord | BetweenRecords | AfterRemoval

  function CrashedAdding(s: State, c: AsyncQueue.Command, opts: Settings, point: AddPoint): State
    requires !AsyncQueue.Urgent(c)
  {
    match point
    case BeforeRecord => Restarted(s, true)
    case BetweenRecords => Do(s, CrashInAdd(c), opts)
    case AfterRemoval => Restarted(Do(s, Add(c), opts), true)
  }

  /** Where a crash stops MQTTAsync_processCommand: the record goes before the packet is stored or sent. */
  datatype DispatchPoint = BeforeRemoval | BetweenThem | AfterPacket

  function CrashedDispatching(s: State, point: DispatchPoint): State
    requires s.queue != []
  {
    match point
    case BeforeRemoval => Restarted(s, true)
    case BetweenThem => Restarted(Remove(s, 0, Stopped), true)
    case AfterPacket => Restarted(TakenOut(s), true)
  }

  /** Tickets of the stored publishes. */
  ghost function StoredPublishes(queue: seq<Entry>): set<int> {
    set k | 0 <= k < |queue| && Stored(queue[k]) && queue[k].command.Publish? :: queue[k].ticket
  }

  ghost predicate Apart(queue: seq<Entry>) {
    forall i, j :: 0 <= i < j < |queue| && queue[i].ticket >= 0 ==> queue[i].ticket != queue[j].ticket
  }

  lemma StoredStep(queue: seq<Entry>)
    requires queue != [] && Apart(queue) && (Stored(queue[0]) ==> queue[0].ticket >= 0)
    ensures var e, rest := queue[0], StoredPublishes(queue[1..]);
            StoredPublishes(queue) == rest + (if Stored(e) && e.command.Publish? then {e.ticket} else {})
            && (Stored(e) ==> e.ticket !in rest) && Apart(queue[1..])
  {
    var rest := queue[1..];
    assert forall k :: 0 <= k < |rest| ==> rest[k] == queue[k + 1];
    forall t ensures t in StoredPublishes(rest) ==> t in StoredPublishes(queue) {
      if t in StoredPublishes(rest) {
        var k :| 0 <= k < |rest| && Stored(rest[k]) && rest[k].command.Publish? && rest[k].ticket == t;
        assert queue[k + 1].ticket == t;
      }
    }
    forall t | t in StoredPublishes(queue) ensures t in StoredPublishes(rest) || t == queue[0].ticket {
      var k :| 0 <= k < |queue| && Stored(queue[k]) && queue[k].command.Publish? && queue[k].ticket == t;
      assert k > 0 ==> rest[k - 1].ticket == t;
    }
  }

  lemma PartStep(queue: seq<Entry>)
    requires queue != []
    ensures Buffered(StoredPart(queue)) ==
            Buffered(StoredPart(queue[1..])) + (if Stored(queue[0]) && queue[0].command.Publish? then 1 else 0)
  {
    if Stored(queue[0]) {
      assert StoredPart(queue)[1..] == StoredPart(queue[1..]);
    } else {
      assert StoredPart(queue) == StoredPart(queue[1..]);
    }
  }

  lemma {:induction false} CountStored(queue: seq<Entry>)
    requires Apart(queue) && forall k :: 0 <= k < |queue| && Stored(queue[k]) ==> queue[k].ticket >= 0
    ensures Buffered(StoredPart(queue)) == |StoredPublishes(queue)|
  {
    if queue == [] {
      assert StoredPublishes(queue) == {};
    } else {
      StoredStep(queue);
      PartStep(queue);
      hide StoredPart, Buffered, StoredPublishes, Apart;
      CountStored(queue[1..]);
    }
  }

  lemma {:induction false} AllStored(queue: seq<Entry>)
    requires forall k :: 0 <= k < |queue| ==> Stored(queue[k])
    ensures StoredPart(queue) == queue
  {
    if queue != [] { AllStored(queue[1..]); }
  }

  lemma SamePublishes(s: State)
    requires Inv(s)
    ensures StoredPublishes(FromRecords(s.store)) == StoredPublishes(s.queue)
  {
    var q := FromRecords(s.store);
    hide SortedKeys, FromRecords;
    forall t ensures t in StoredPublishes(q) <==> t in StoredPublishes(s.queue) {
      if t in StoredPublishes(q) {
        var i :| 0 <= i < |q| && q[i].command.Publish? && q[i].ticket == t;
        var k := CommandBack(s, i);
      }
      if t in StoredPublishes(s.queue) {
        var k :| 0 <= k < |s.queue| && Stored(s.queue[k]) && s.queue[k].command.Publish? && s.queue[k].ticket == t;
        var i := FoundAgain(s.queue, s.store, k);
        var j := CommandBack(s, i);
        SameEntry(s.queue, s.fate, j, k);
      }
    }
  }

  lemma CommandBack(s: State, i: nat) returns (k: nat)
    requires Inv(s) && i < |FromRecords(s.store)|
    ensures k < |s.queue| && Stored(s.queue[k]) && s.queue[k].ticket == FromRecords(s.store)[i].ticket >= 0
    ensures s.queue[k].command == FromRecords(s.store)[i].command && Stored(FromRecords(s.store)[i])
  {
    hide OneFate, SentOnce, NumbersDiffer, Counted, FromRecords, SortedKeys;
    RestoredAt(s.store, i);
    k := RecordIsGood(s.queue, s.store, s.total, s.accepted, SortedKeys(s.store.Keys)[i]);
  }

  /** A restart brings back as many publishes as are stored. */
  lemma BufferedBack(s: State)
    requires Inv(s)
    ensures Buffered(Restarted(s, true).queue) == Buffered(StoredPart(s.queue))
  {
    var q := FromRecords(s.store);
    SamePublishes(s);
    RestoredKeepsInv(s);
    forall i | 0 <= i < |q| ensures Stored(q[i]) && q[i].ticket >= 0 { var k := CommandBack(s, i); }
    assert forall k :: 0 <= k < |s.queue| && Stored(s.queue[k]) ==> s.queue[k].ticket >= 0;
    assert Apart(s.queue) && Apart(q);
    hide Inv, FromRecords, MarkAll, SortedKeys;
    AllStored(q);
    CountStored(q);
    CountStored(s.queue);
  }

  lemma {:induction false} PartConcat(a: seq<Entry>, b: seq<Entry>)
    ensures StoredPart(a + b) == StoredPart(a) + StoredPart(b)
  {
    if a == [] {
      assert a + b == b;
    } else {
      assert (a + b)[1..] == a[1..] + b && (a + b)[0] == a[0];
      PartConcat(a[1..], b);
      var head := if Stored(a[0]) then [a[0]] else [];
      var x, y := StoredPart(a[1..]), StoredPart(b);
      assert StoredPart(a) == head + x && StoredPart(a + b) == head + StoredPart(a[1..] + b);
      hide StoredPart;
      assert head + (x + y) == head + x + y;
    }
  }

  lemma {:induction false} BufferedConcat(a: seq<Entry>, b: seq<Entry>)
    ensures Buffered(a + b) == Buffered(a) + Buffered(b)
  {
    if a == [] {
      assert a + b == b;
    } else {
      assert (a + b)[1..] == a[1..] + b;
      BufferedConcat(a[1..], b);
    }
  }

  lemma {:induction false} PartFewer(queue: seq<Entry>)
    ensures Buffered(StoredPart(queue)) <= Buffered(queue)
  {
    if queue != [] {
      PartFewer(queue[1..]);
      PartStep(queue);
      hide StoredPart;
    }
  }

  lemma PutBuffers(s: State, c: AsyncQueue.Command, qos0: bool)
    ensures var q := Put(s, c, qos0).queue;
            && Buffered(q) == Buffered(s.queue) + (if c.Publish? then 1 else 0)
            && (s.total >= 0 ==>
                  Buffered(StoredPart(q)) ==
                  Buffered(StoredPart(s.queue)) + (if c.Publish? && Persisted(c, qos0) then 1 else 0))
  {
    var q := Put(s, c, qos0).queue;
    var e := q[|s.queue|];
    assert [e][1..] == [];
    BufferedConcat(s.queue, [e]);
    PartConcat(s.queue, [e]);
    BufferedConcat(StoredPart(s.queue), StoredPart([e]));
  }

  lemma {:induction false} WithoutBuffers(queue: seq<Entry>, k: nat)
    requires k < |queue|
    ensures Buffered(Without(queue, k)) == Buffered(queue) - (if queue[k].command.Publish? then 1 else 0)
  {
    var q := Without(queue, k);
    if k == 0 {
      assert q == queue[1..];
    } else {
      WithoutBuffers(queue[1..], k - 1);
      assert q[0] == queue[0] && q[1..] == Without(queue[1..], k - 1);
    }
  }

  /** Accepting a publish keeps the window. */
  lemma AddedFits(s: State, c: AsyncQueue.Command, opts: Settings)
    requires opts.bounded && opts.limit > 0 && Buffered(s.queue) <= opts.limit && c.Publish?
    ensures Buffered(Added(s, c, opts).queue) <= opts.limit
  {
    var p := Put(s, c, opts.qos0);
    PutBuffers(s, c, opts.qos0);
    hide Put;
    var k := FirstPublishAt(p.queue);
    if Displaces(s, c, opts) {
      if k == |p.queue| { NoneBuffered(p.queue); }
      WithoutBuffers(p.queue, k);
    }
  }

  lemma {:induction false} NoneBuffered(queue: seq<Entry>)
    requires forall i :: 0 <= i < |queue| ==> !queue[i].command.Publish?
    ensures Buffered(queue) == 0
  {
    if queue != [] { NoneBuffered(queue[1..]); }
  }

  /** A crash while a publish is accepted leaves more publishes queued than the create options allow exactly if it comes
      between the two records, and the window was full of stored publishes. */
  lemma WindowExact(s: State, c: AsyncQueue.Command, opts: Settings, point: AddPoint)
    requires Inv(s) && c.Publish? && Safe(s, Add(c), opts)
    requires opts.bounded && opts.limit > 0 && Buffered(s.queue) <= opts.limit
    ensures Buffered(CrashedAdding(s, c, opts, point).queue) > opts.limit <==>
            point.BetweenRecords? && Persisted(c, opts.qos0) && Buffered(StoredPart(s.queue)) == opts.limit
  {
    PutBuffers(s, c, opts.qos0);
    PartFewer(s.queue);
    assert s.total >= 0;
    match point
    case BeforeRecord =>
      hide Inv, Restarted;
      BufferedBack(s);
    case BetweenRecords =>
      PutKeepsInv(s, c, opts.qos0);
      hide Inv, Restarted, Put;
      BufferedBack(Put(s, c, opts.qos0));
    case AfterRemoval =>
      var t := Do(s, Add(c), opts);
      StepKeepsInv(s, Add(c), opts);
      AddedFits(s, c, opts);
      hide Inv, Restarted, Put, Added;
      PartFewer(t.queue);
      BufferedBack(t);
  }

  /** A crash while a stored command is dispatched loses it exactly if it comes between the two stores; no other crash
      loses it or brings it back although it went out; and no other command is affected. */
  lemma DispatchExact(s: State, point: DispatchPoint, k: nat)
    requires Inv(s) && k < |s.queue| && Stored(s.queue[0]) && Stored(s.queue[k])
    ensures var r, t := CrashedDispatching(s, point), s.queue[k].ticket;
            && (t in Tickets(r.queue) <==> k > 0 || point.BeforeRemoval?)
            && (t in r.sent <==> k == 0 && point.AfterPacket?)
  {
    var t, n := s.queue[k].ticket, s.queue[k].seqno;
    OnlyRecord(s, k);
    assert t !in s.sent;
    assert k > 0 ==> n != s.queue[0].seqno;
    assert s.queue[0].ticket >= 0 && (k > 0 ==> s.queue[0].ticket != t);
    hide Inv, FromRecords, SortedKeys, Tickets, MarkAll;
    var store := if point.BeforeRemoval? then s.store else s.store - {s.queue[0].seqno};
    assert CrashedDispatching(s, point).queue == FromRecords(store);
    TicketsBack(store, t);
    assert n in store <==> k > 0 || point.BeforeRemoval?;
    if m :| m in store && store[m].ticket == t {
      assert m == n;
    }
    assert CrashedDispatching(s, point).sent ==
      if point.AfterPacket? then s.sent + [s.queue[0].ticket] else s.sent;
  }

  lemma TicketsBack(store: map<int, Record>, t: int)
    ensures t in Tickets(FromRecords(store)) <==> exists n :: n in store && store[n].ticket == t
  {
    var q, keys := FromRecords(store), SortedKeys(store.Keys);
    hide FromRecords, SortedKeys;
    if t in Tickets(q) {
      var i :| 0 <= i < |q| && q[i].ticket == t;
      RestoredAt(store, i);
    }
    if n :| n in store && store[n].ticket == t {
      assert n in keys;
      var i :| 0 <= i < |keys| && keys[i] == n;
      RestoredAt(store, i);
      assert q[i].ticket == t;
    }
  }

  // ---- runs in which the reset does harm

  ghost predicate Reached(s: State, opts: Settings) {
    exists states, steps :: Run(states, steps, opts) && states[|steps|] == s
  }

  lemma ReachedNext(s: State, step: Step, opts: Settings)
    requires Reached(s, opts) && Enabled(s, step)
    ensures Reached(Do(s, step, opts), opts)
  {
    var states, steps :| Run(states, steps, opts) && states[|steps|] == s;
    hide Do, Enabled;
    assert Run(states + [Do(s, step, opts)], steps + [step], opts);
  }

  ghost predicate Resting(s: State, n: int) {
    s.queue == [] && s.store == map[] && s.seqno == s.total == n && |s.fate| == |s.accepted|
  }

  lemma OneRound(s: State, c: AsyncQueue.Command, opts: Settings, n: nat) returns (t: State)
    requires Reached(s, opts) && Resting(s, n) && n + 1 < PERSISTENCE_SEQNO_LIMIT
    requires Persisted(c, opts.qos0) && (opts.bounded ==> opts.limit > 0)
    ensures Reached(t, opts) && Resting(t, n + 1)
  {
    assert Buffered([]) == 0;
    var p := Do(s, Add(c), opts);
    assert p.queue == [Entry(|s.accepted|, c, n + 1, n + 1, c.Publish?)];
    t := Do(p, Dispatch, opts);
    assert t.store == map[];
    hide Reached, Do;
    ReachedNext(s, Add(c), opts);
    ReachedNext(p, Dispatch, opts);
  }

  /** Any number of commands come and go. */
  lemma {:induction false} Rests(c: AsyncQueue.Command, opts: Settings, n: nat) returns (s: State)
    requires n < PERSISTENCE_SEQNO_LIMIT && Persisted(c, opts.qos0) && (opts.bounded ==> opts.limit > 0)
    ensures Reached(s, opts) && Resting(s, n)
  {
    if n == 0 {
      s := START;
      assert Run([START], [], opts);
    } else {
      var r := Rests(c, opts, n - 1);
      s := OneRound(r, c, opts, n - 1);
    }
  }

  lemma Adds(s: State, c: AsyncQueue.Command, opts: Settings) returns (t: State)
    requires Reached(s, opts) && Persisted(c, opts.qos0) && !opts.bounded
    ensures Reached(t, opts)
    ensures var n := NextNumber(s.seqno);
            t == State(n, s.queue + [Entry(|s.accepted|, c, n, s.total + 1, c.Publish?)],
                       s.store[n := Record(|s.accepted|, c)], s.total + 1, s.accepted + [c], s.fate + [Waiting], s.sent)
  {
    t := Do(s, Add(c), opts);
    hide Do, Reached, Persisted, NextNumber;
    ReachedNext(s, Add(c), opts);
  }

  lemma TwoKeys(keys: set<int>, a: int, b: int)
    requires keys == {a, b} && a < b
    ensures SortedKeys(keys) == [a, b]
  {
    var r := SortedKeys(keys);
    assert a in keys && b in keys;
    AsyncQueue.RisingSame(r, [a, b]);
  }

  /** Two commands are queued when the counter is reset: they have the numbers 999999 and 0. */
  lemma AcrossReset(a: AsyncQueue.Command, b: AsyncQueue.Command, opts: Settings) returns (s: State, t: nat)
    requires Persisted(a, opts.qos0) && Persisted(b, opts.qos0) && !opts.bounded
    ensures Reached(s, opts) && |s.accepted| == |s.fate| == t + 2 && s.seqno == 0 && s.accepted[t..] == [a, b]
    ensures s.queue == [Entry(t, a, 999999, 999999, a.Publish?), Entry(t + 1, b, 0, 1000000, b.Publish?)]
    ensures s.store == map[999999 := Record(t, a), 0 := Record(t + 1, b)]
  {
    var r := Rests(a, opts, 999998);
    t := |r.accepted|;
    hide Reached, Persisted;
    var p := Adds(r, a, opts);
    assert p.queue == [Entry(t, a, 999999, 999999, a.Publish?)] && p.store == map[999999 := Record(t, a)];
    s := Adds(p, b, opts);
  }

  /** A restart brings them back in the other order... */
  lemma ResetSwaps(a: AsyncQueue.Command, b: AsyncQueue.Command, opts: Settings) returns (s: State, t: nat)
    requires Persisted(a, opts.qos0) && Persisted(b, opts.qos0) && !opts.bounded
    ensures Reached(s, opts) && |s.accepted| == |s.fate| == t + 2 && s.seqno == s.total == 999999
    ensures s.accepted[t..] == [a, b]
    ensures s.queue == [Entry(t + 1, b, 0, 0, true), Entry(t, a, 999999, 999999, true)]
    ensures s.store == map[999999 := Record(t, a), 0 := Record(t + 1, b)]
  {
    var r;
    r, t := AcrossReset(a, b, opts);
    s := Do(r, Restart(true), opts);
    TwoKeys(r.store.Keys, 0, 999999);
    hide Reached, SortedKeys;
    assert s.queue == FromRecords(r.store) == [FromRecord(r.store, 0), FromRecord(r.store, 999999)];
    hide Do;
    ReachedNext(r, Restart(true), opts);
  }

  lemma Overwritten(r: State, a: AsyncQueue.Command, b: AsyncQueue.Command, c: AsyncQueue.Command, opts: Settings,
                    t: nat) returns (p: State)
    requires Reached(r, opts) && |r.accepted| == |r.fate| == t + 2 && r.seqno == r.total == 999999
    requires r.queue == [Entry(t + 1, b, 0, 0, true), Entry(t, a, 999999, 999999, true)]
    requires r.store == map[999999 := Record(t, a), 0 := Record(t + 1, b)]
    requires Persisted(c, opts.qos0) && c.Publish? && !opts.bounded
    ensures Reached(p, opts) && p.accepted == r.accepted + [c] && p.fate == r.fate + [Waiting]
    ensures p.queue == r.queue + [Entry(t + 2, c, 0, 1000000, true)]
    ensures p.store == map[999999 := Record(t, a), 0 := Record(t + 2, c)]
  {
    hide Reached, Persisted;
    p := Adds(r, c, opts);
  }

  /** ... and the next command takes the number of the first of them: it goes out in its place, and finds nothing when
      its own turn comes. */
  lemma ResetOverwrites(a: AsyncQueue.Command, b: AsyncQueue.Command, c: AsyncQueue.Command, opts: Settings)
    returns (s: State, t: nat)
    requires Persisted(a, opts.qos0) && Persisted(b, opts.qos0) && Persisted(c, opts.qos0) && !opts.bounded
    requires c.Publish?
    ensures Reached(s, opts) && |s.accepted| == |s.fate| == t + 3 && s.accepted[t..] == [a, b, c] && s.queue == []
    ensures s.fate[t] == Sent(Body(a)) && s.fate[t + 1] == Sent(Body(c)) && s.fate[t + 2] == Sent(Missing)
  {
    var r;
    r, t := ResetSwaps(a, b, opts);
    var p := Overwritten(r, a, b, c, opts, t);
    var q := Do(p, Dispatch, opts);
    assert q.queue == [Entry(t, a, 999999, 999999, true), Entry(t + 2, c, 0, 1000000, true)];
    var u := Do(q, Dispatch, opts);
    assert u.queue == [Entry(t + 2, c, 0, 1000000, true)] && u.store == map[];
    s := Do(u, Dispatch, opts);
    hide Do, Reached, Persisted;
    ReachedNext(p, Dispatch, opts);
    ReachedNext(q, Dispatch, opts);
    ReachedNext(u, Dispatch, opts);
  }

  /** No restart is needed: a connect, which has no record, clears the number 0. */
  lemma ConnectErases(a: AsyncQueue.Command, opts: Settings) returns (s: State, t: nat)
    requires Persisted(a, opts.qos0) && a.Publish? && !opts.bounded
    ensures Reached(s, opts) && |s.accepted| == |s.fate| == t + 1 && s.accepted[t] == a && s.fate[t] == Sent(Missing)
  {
    var r := Rests(a, opts, 999999);
    t := |r.accepted|;
    var p := Adds(r, a, opts);
    assert p.queue == [Entry(t, a, 0, 1000000, true)];
    var q := Do(p, Urge(AsyncQueue.Connect), opts);
    var u := Do(q, Dispatch, opts);
    assert u.queue == [Entry(t, a, 0, 1000000, true)] && u.store == map[];
    s := Do(u, Dispatch, opts);
    hide Do, Reached, Persisted;
    ReachedNext(p, Urge(AsyncQueue.Connect), opts);
    ReachedNext(q, Dispatch, opts);
    ReachedNext(u, Dispatch, opts);
  }
}
