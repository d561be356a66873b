/** The records that one client's queued commands have in the persistent store: how MQTTAsync_persistCommand numbers
    them, what MQTTAsync_processCommand reads back, and what MQTTAsync_restoreCommands makes of them after a restart.
    The client speaks one version, so its keys differ by number alone. */
module CommandStore {
  import opened AsyncQueue
  import opened Sequences

  const PERSISTENCE_SEQNO_LIMIT := 1000000

  /** Commands that get a record: requests and publishes, those with QoS 0 only if the create options say so. */
  predicate Persisted(c: Command, qos0: bool) {
    match c
    case Connect => false
    case Disconnect(_) => false
    case Subscribe(_) => true
    case Unsubscribe(_) => true
    case Publish(_, qos, _, _, _) => qos != 0 || qos0
  }

  /** Commands that take a number: a disconnect by the application takes one too. */
  predicate TakesNumber(c: Command, qos0: bool) {
    Persisted(c, qos0) || c == Disconnect(false)
  }

  function NextNumber(n: int): int {
    if n + 1 == PERSISTENCE_SEQNO_LIMIT then 0 else n + 1
  }

  /** A ticket is the place of a command among all that the client has ever had accepted. The source has none; nothing
      that happens depends on it. */
  datatype Record = Record(ticket: int, command: Command)

  /** A queued command. `seqno` is 0 if it has no record; `inStore` says that its contents are in the record alone.
      `serial` counts numbers on through resets, -1 for none; like the ticket (-1 for an urgent command), it is not in
      the source. */
  datatype Entry = Entry(ticket: int, command: Command, seqno: int, serial: int, inStore: bool)

  predicate Stored(e: Entry) {
    e.serial >= 0
  }

  /** What a dispatch finds. */
  datatype Body = Missing | Body(command: Command)

  /** What has become of an accepted command: it may wait in the queue, have gone out, have been displaced by a newer
      publish, have had no record at a restart, have been deleted with all records, or have been taken out of the store
      by a dispatch that a crash cut short. */
  datatype Fate = Waiting | Sent(body: Body) | Displaced | NotStored | Deleted | Stopped

  datatype Settings = Settings(qos0: bool, bounded: bool, limit: int)

  /** `queue` is the client's part of the queue, `total` the serial of `seqno`. */
  datatype State = State(seqno: int, queue: seq<Entry>, store: map<int, Record>,
                         total: int, accepted: seq<Command>, fate: seq<Fate>, sent: seq<int>)

  const START := State(0, [], map[], 0, [], [], [])

  // ---- what the operations do

  /** ListAppend and MQTTAsync_persistCommand. */
  function Put(s: State, c: Command, qos0: bool): State {
    var seqno := if TakesNumber(c, qos0) then NextNumber(s.seqno) else s.seqno;
    var total := if TakesNumber(c, qos0) then s.total + 1 else s.total;
    var t := |s.accepted|;
    State(seqno,
          s.queue + [if Persisted(c, qos0) then Entry(t, c, seqno, total, c.Publish?) else Entry(t, c, 0, -1, false)],
          if Persisted(c, qos0) then s.store[seqno := Record(t, c)] else s.store,
          total, s.accepted + [c], s.fate + [Waiting], s.sent)
  }

  function Mark(fate: seq<Fate>, t: int, f: Fate): (r: seq<Fate>)
    ensures |r| == |fate|
  {
    if 0 <= t < |fate| then fate[t := f] else fate
  }

  /** ListDetach and MQTTAsync_unpersistCommand: a command without a record has the number 0. */
  function Remove(s: State, k: nat, f: Fate): State
    requires k < |s.queue|
  {
    var e := s.queue[k];
    s.(queue := Without(s.queue, k), store := s.store - {e.seqno}, fate := Mark(s.fate, e.ticket, f))
  }

  function FirstPublishAt(queue: seq<Entry>): (k: nat)
    ensures k <= |queue| && (k < |queue| ==> queue[k].command.Publish?)
    ensures forall i :: 0 <= i < k ==> !queue[i].command.Publish?
  {
    if queue == [] || queue[0].command.Publish? then 0 else 1 + FirstPublishAt(queue[1..])
  }

  function Buffered(queue: seq<Entry>): nat {
    if queue == [] then 0 else (if queue[0].command.Publish? then 1 else 0) + Buffered(queue[1..])
  }

  predicate Displaces(s: State, c: Command, opts: Settings) {
    c.Publish? && opts.bounded && Buffered(s.queue) >= opts.limit
  }

  /** MQTTAsync_addCommand for a command that is not urgent. */
  function Added(s: State, c: Command, opts: Settings): State {
    var p := Put(s, c, opts.qos0);
    var k := FirstPublishAt(p.queue);
    if Displaces(s, c, opts) && k < |p.queue| then Remove(p, k, Displaced) else p
  }

  function Urged(s: State, c: Command): State {
    s.(queue := [Entry(-1, c, 0, -1, false)] + s.queue)
  }

  function BodyOf(s: State, e: Entry): Body {
    if !e.inStore then Body(e.command)
    else if e.seqno in s.store then Body(s.store[e.seqno].command) else Missing
  }

  /** MQTTAsync_processCommand: the client's first command, with the contents that are found. */
  function TakenOut(s: State): State
    requires s.queue != []
  {
    var e := s.queue[0];
    Remove(s, 0, Sent(BodyOf(s, e))).(sent := if e.ticket < 0 then s.sent else s.sent + [e.ticket])
  }

  predicate Lowest(m: int, keys: set<int>) {
    m in keys && forall n :: n in keys ==> m <= n
  }

  lemma HasLowest(keys: set<int>)
    requires keys != {}
    ensures exists m :: m in keys && Lowest(m, keys)
  {
    if forall n :: n !in keys { assert false; }
    var x :| x in keys;
    var rest := keys - {x};
    if rest != {} {
      HasLowest(rest);
      var m :| m in rest && Lowest(m, rest);
      var l := if m <= x then m else x;
      assert Lowest(l, keys) by { forall n | n in keys && n != x ensures n in rest {} }
    } else {
      assert Lowest(x, keys) by { forall n | n in keys && n != x ensures n in rest {} }
    }
  }

  lemma LowestFirst(m: int, keys: set<int>, rest: seq<int>)
    requires Lowest(m, keys) && Rising(rest) && forall n :: n in rest <==> n in keys - {m}
    ensures Rising([m] + rest) && forall n :: n in [m] + rest <==> n in keys
  {
    assert forall i :: 0 <= i < |rest| ==> rest[i] in rest;
  }

  /** The numbers as qsort leaves them. */
  function SortedKeys(keys: set<int>): (r: seq<int>)
    ensures forall n :: n in r <==> n in keys
    ensures Rising(r)
  {
    if keys == {} then [] else
      HasLowest(keys);
      var m :| m in keys && Lowest(m, keys);
      var rest := SortedKeys(keys - {m});
      LowestFirst(m, keys, rest);
      [m] + rest
  }

  function FromRecord(store: map<int, Record>, n: int): Entry
    requires n in store
  {
    Entry(store[n].ticket, store[n].command, n, n, true)
  }

  function FromRecords(store: map<int, Record>): (r: seq<Entry>)
    ensures |r| == |SortedKeys(store.Keys)|
  {
    var keys := SortedKeys(store.Keys);
    seq(|keys|, i requires 0 <= i < |keys| => FromRecord(store, keys[i]))
  }

  function Greatest(store: map<int, Record>): int {
    var keys := SortedKeys(store.Keys);
    if keys == [] || keys[|keys| - 1] < 0 then 0 else keys[|keys| - 1]
  }

  function MarkAll(fate: seq<Fate>, ts: set<int>, f: Fate): (r: seq<Fate>)
    ensures |r| == |fate| && forall t :: 0 <= t < |fate| ==> r[t] == if t in ts then f else fate[t]
  {
    seq(|fate|, t requires 0 <= t < |fate| => if t in ts then f else fate[t])
  }

  function Unstored(queue: seq<Entry>): set<int> {
    set k | 0 <= k < |queue| && !Stored(queue[k]) :: queue[k].ticket
  }

  function Tickets(queue: seq<Entry>): set<int> {
    set k | 0 <= k < |queue| :: queue[k].ticket
  }

  /** The client is created again. Unless restoreMessages is off, MQTTAsync_restoreCommands appends what the records
      hold, by number, and goes on counting from the greatest. */
  function Restarted(s: State, restores: bool): State {
    if restores then
      s.(seqno := Greatest(s.store), total := Greatest(s.store), queue := FromRecords(s.store),
         fate := MarkAll(s.fate, Unstored(s.queue), NotStored))
    else
      s.(seqno := 0, total := 0, queue := [], store := map[], fate := MarkAll(s.fate, Tickets(s.queue), Deleted))
  }

  datatype Step =
    | Add(c: Command)
    | Urge(c: Command)
    | Dispatch
    | Restart(restores: bool)
    | CrashInAdd(c: Command)  // the new command has its record, the displaced one still has its own
    | CrashInDispatch         // the record is gone, the packet not yet stored or sent

  predicate Enabled(s: State, step: Step) {
    match step
    case Add(c) => !Urgent(c)
    case Urge(c) => Urgent(c)
    case Dispatch => s.queue != []
    case Restart(_) => true
    case CrashInAdd(c) => !Urgent(c)
    case CrashInDispatch => s.queue != []
  }

  /** What is queued and stored when a restart comes. */
  function Before(s: State, step: Step, opts: Settings): State
    requires Enabled(s, step)
  {
    match step
    case CrashInAdd(c) => Put(s, c, opts.qos0)
    case CrashInDispatch => Remove(s, 0, Stopped)
    case _ => s
  }

  function Do(s: State, step: Step, opts: Settings): State
    requires Enabled(s, step)
  {
    match step
    case Add(c) => Added(s, c, opts)
    case Urge(c) => Urged(s, c)
    case Dispatch => TakenOut(s)
    case Restart(restores) => Restarted(s, restores)
    case _ => Restarted(Before(s, step, opts), true)
  }

  // ---- the invariant

  ghost predicate Counted(s: State) {
    0 <= s.seqno < PERSISTENCE_SEQNO_LIMIT && s.total >= 0 && s.seqno == s.total % PERSISTENCE_SEQNO_LIMIT
  }

  ghost predicate EntryOk(e: Entry, total: int, accepted: seq<Command>) {
    && -1 <= e.ticket < |accepted| && (e.ticket >= 0 ==> accepted[e.ticket] == e.command)
    && if Stored(e) then e.ticket >= 0 && e.serial <= total && e.seqno == e.serial % PERSISTENCE_SEQNO_LIMIT
         && !Urgent(e.command)
       else e.seqno == 0 && !e.inStore
  }

  ghost predicate EntriesOk(queue: seq<Entry>, total: int, accepted: seq<Command>) {
    forall k :: 0 <= k < |queue| ==> EntryOk(queue[k], total, accepted)
  }

  /** Serials go up along the queue; no two commands share a number. */
  ghost predicate NumbersDiffer(queue: seq<Entry>) {
    forall i, j :: 0 <= i < j < |queue| && Stored(queue[i]) && Stored(queue[j]) ==>
      queue[i].serial < queue[j].serial && queue[i].seqno != queue[j].seqno
  }

  predicate HasRecord(e: Entry, store: map<int, Record>) {
    e.seqno in store && store[e.seqno] == Record(e.ticket, e.command)
  }

  /** The records are those of the stored commands in the queue. */
  ghost predicate Mirrored(queue: seq<Entry>, store: map<int, Record>) {
    && (forall k :: 0 <= k < |queue| && Stored(queue[k]) ==> queue[k].ticket >= 0 && HasRecord(queue[k], store))
    && (forall n :: n in store ==> exists k :: 0 <= k < |queue| && Stored(queue[k]) && queue[k].seqno == n)
  }

  /** Just the accepted commands whose fate is to wait are in the queue, each once. */
  ghost predicate OneFate(queue: seq<Entry>, fate: seq<Fate>) {
    && (forall t :: 0 <= t < |fate| && fate[t].Waiting? ==> exists k :: 0 <= k < |queue| && queue[k].ticket == t)
    && (forall k :: 0 <= k < |queue| && queue[k].ticket >= 0 ==>
          queue[k].ticket < |fate| && fate[queue[k].ticket].Waiting?)
    && (forall i, j :: 0 <= i < j < |queue| && queue[i].ticket >= 0 ==> queue[i].ticket != queue[j].ticket)
  }

  /** Every command that went out went out once, and as it was accepted. */
  ghost predicate SentOnce(accepted: seq<Command>, fate: seq<Fate>, sent: seq<int>) {
    && |fate| == |accepted|
    && (forall t :: 0 <= t < |fate| && fate[t].Sent? ==> fate[t].body == Body(accepted[t]) && t in sent)
    && (forall i :: 0 <= i < |sent| ==> 0 <= sent[i] < |fate| && fate[sent[i]].Sent?)
    && (forall i, j :: 0 <= i < j < |sent| ==> sent[i] != sent[j])
  }

  ghost predicate Inv(s: State) {
    && Counted(s) && EntriesOk(s.queue, s.total, s.accepted) && NumbersDiffer(s.queue)
    && Mirrored(s.queue, s.store) && OneFate(s.queue, s.fate) && SentOnce(s.accepted, s.fate, s.sent)
  }

  // ---- safe steps

  /** The number that a new record gets is not that of another record. */
  predicate FreeNumber(s: State, c: Command, qos0: bool) {
    Persisted(c, qos0) ==> NextNumber(s.seqno) !in s.store
  }

  /** Taking out a command without a record takes no record of another. */
  predicate FreeZero(s: State, k: nat)
    requires k < |s.queue|
  {
    !Stored(s.queue[k]) ==> 0 !in s.store
  }

  predicate Safe(s: State, step: Step, opts: Settings)
    requires Enabled(s, step)
  {
    match step
    case Add(c) =>
      var p := Put(s, c, opts.qos0);
      var k := FirstPublishAt(p.queue);
      FreeNumber(s, c, opts.qos0) && (Displaces(s, c, opts) && k < |p.queue| ==> FreeZero(p, k))
    case Urge(_) => true
    case Dispatch => FreeZero(s, 0)
    case Restart(_) => true
    case CrashInAdd(c) => FreeNumber(s, c, opts.qos0)
    case CrashInDispatch => FreeZero(s, 0)
  }

  lemma NextCounted(seqno: int, total: int)
    requires 0 <= seqno < PERSISTENCE_SEQNO_LIMIT && total >= 0 && seqno == total % PERSISTENCE_SEQNO_LIMIT
    ensures NextNumber(seqno) == (total + 1) % PERSISTENCE_SEQNO_LIMIT
    ensures 0 <= NextNumber(seqno) < PERSISTENCE_SEQNO_LIMIT
  {
  }

  lemma PutEntries(queue: seq<Entry>, total: int, accepted: seq<Command>, e: Entry, c: Command, now: int)
    requires EntriesOk(queue, total, accepted) && total <= now && EntryOk(e, now, accepted + [c])
    ensures EntriesOk(queue + [e], now, accepted + [c])
  {
  }

  lemma PutNumbers(queue: seq<Entry>, store: map<int, Record>, total: int, accepted: seq<Command>, e: Entry)
    requires NumbersDiffer(queue) && EntriesOk(queue, total, accepted) && Mirrored(queue, store)
    requires Stored(e) ==> e.serial > total && e.seqno !in store
    ensures NumbersDiffer(queue + [e])
  {
  }

  lemma PutMirrors(queue: seq<Entry>, store: map<int, Record>, e: Entry)
    requires Mirrored(queue, store) && (Stored(e) ==> e.ticket >= 0 && e.seqno !in store)
    ensures Mirrored(queue + [e], if Stored(e) then store[e.seqno := Record(e.ticket, e.command)] else store)
  {
    var now := if Stored(e) then store[e.seqno := Record(e.ticket, e.command)] else store;
    var q := queue + [e];
    forall n | n in now ensures exists k :: 0 <= k < |q| && Stored(q[k]) && q[k].seqno == n {
      if n in store {
        var k :| 0 <= k < |queue| && Stored(queue[k]) && queue[k].seqno == n;
        assert q[k] == queue[k];
      } else {
        assert q[|queue|].seqno == n;
      }
    }
  }

  lemma PutFates(queue: seq<Entry>, fate: seq<Fate>, e: Entry)
    requires OneFate(queue, fate) && e.ticket == |fate|
    ensures OneFate(queue + [e], fate + [Waiting])
  {
    var q := queue + [e];
    forall t | 0 <= t < |fate| + 1 && (fate + [Waiting])[t].Waiting?
      ensures exists k :: 0 <= k < |q| && q[k].ticket == t
    {
      if t < |fate| {
        var k :| 0 <= k < |queue| && queue[k].ticket == t;
        assert q[k].ticket == t;
      } else {
        assert q[|queue|].ticket == t;
      }
    }
  }

  lemma StoredNotUrgent(c: Command, qos0: bool)
    requires Persisted(c, qos0)
    ensures !Urgent(c)
  {
  }

  lemma PutKeepsInv(s: State, c: Command, qos0: bool)
    requires Inv(s) && FreeNumber(s, c, qos0)
    ensures Inv(Put(s, c, qos0))
  {
    NextCounted(s.seqno, s.total);
    var p := Put(s, c, qos0);
    var e := p.queue[|s.queue|];
    hide Persisted, NextNumber;
    assert Stored(e) ==> !Urgent(c) by { if Persisted(c, qos0) { StoredNotUrgent(c, qos0); } }
    assert EntryOk(e, p.total, p.accepted);
    hide EntriesOk, EntryOk, NumbersDiffer, Mirrored, OneFate;
    PutEntries(s.queue, s.total, s.accepted, e, c, p.total);
    PutNumbers(s.queue, s.store, s.total, s.accepted, e);
    PutMirrors(s.queue, s.store, e);
    PutFates(s.queue, s.fate, e);
  }

  // ---- taking a command out

  lemma RemoveEntries(queue: seq<Entry>, total: int, accepted: seq<Command>, k: nat)
    requires EntriesOk(queue, total, accepted) && NumbersDiffer(queue) && k < |queue|
    ensures EntriesOk(Without(queue, k), total, accepted) && NumbersDiffer(Without(queue, k))
  {
    var q := Without(queue, k);
    assert forall i :: 0 <= i < |q| ==> q[i] == queue[if i < k then i else i + 1];
  }

  lemma RemoveMirrors(queue: seq<Entry>, store: map<int, Record>, k: nat)
    requires Mirrored(queue, store) && NumbersDiffer(queue) && k < |queue|
    requires !Stored(queue[k]) ==> queue[k].seqno !in store
    ensures Mirrored(Without(queue, k), store - {queue[k].seqno})
  {
    var q, e := Without(queue, k), queue[k];
    assert forall i :: 0 <= i < |q| ==> q[i] == queue[if i < k then i else i + 1];
    forall i | 0 <= i < |q| && Stored(q[i]) ensures q[i].seqno != e.seqno {
      assert q[i] == queue[if i < k then i else i + 1];
    }
    forall n | n in store - {e.seqno} ensures exists i :: 0 <= i < |q| && Stored(q[i]) && q[i].seqno == n {
      var i :| 0 <= i < |queue| && Stored(queue[i]) && queue[i].seqno == n;
      assert q[if i < k then i else i - 1] == queue[i];
    }
  }

  lemma RemoveFates(queue: seq<Entry>, fate: seq<Fate>, k: nat, f: Fate)
    requires OneFate(queue, fate) && k < |queue| && !f.Waiting?
    ensures OneFate(Without(queue, k), Mark(fate, queue[k].ticket, f))
  {
    var q, e, now := Without(queue, k), queue[k], Mark(fate, queue[k].ticket, f);
    assert forall i :: 0 <= i < |q| ==> q[i] == queue[if i < k then i else i + 1];
    forall t | 0 <= t < |now| && now[t].Waiting? ensures exists i :: 0 <= i < |q| && q[i].ticket == t {
      var i :| 0 <= i < |queue| && queue[i].ticket == t;
      assert q[if i < k then i else i - 1] == queue[i];
    }
  }

  lemma MarkSent(accepted: seq<Command>, fate: seq<Fate>, sent: seq<int>, t: int, f: Fate)
    requires SentOnce(accepted, fate, sent) && (0 <= t < |fate| ==> fate[t].Waiting?) && !f.Sent?
    ensures SentOnce(accepted, Mark(fate, t, f), sent)
  {
  }

  lemma RemoveKeepsInv(s: State, k: nat, f: Fate)
    requires Inv(s) && k < |s.queue| && FreeZero(s, k) && !f.Waiting? && !f.Sent?
    ensures Inv(Remove(s, k, f))
  {
    assert EntryOk(s.queue[k], s.total, s.accepted);
    assert s.queue[k].ticket >= 0 ==> s.fate[s.queue[k].ticket].Waiting?;
    hide EntriesOk, EntryOk, NumbersDiffer, Mirrored, OneFate, Mark, SentOnce;
    RemoveEntries(s.queue, s.total, s.accepted, k);
    RemoveMirrors(s.queue, s.store, k);
    RemoveFates(s.queue, s.fate, k, f);
    MarkSent(s.accepted, s.fate, s.sent, s.queue[k].ticket, f);
  }

  lemma TakenOutKeepsInv(s: State)
    requires Inv(s) && s.queue != [] && FreeZero(s, 0)
    ensures Inv(TakenOut(s))
    ensures s.queue[0].ticket >= 0 ==> BodyOf(s, s.queue[0]) == Body(s.queue[0].command)
  {
    var e := s.queue[0];
    assert EntryOk(e, s.total, s.accepted);
    assert e.ticket >= 0 ==> s.fate[e.ticket].Waiting?;
    assert e.ticket >= 0 ==> BodyOf(s, e) == Body(s.accepted[e.ticket]);
    hide EntriesOk, EntryOk, NumbersDiffer, Mirrored, OneFate;
    RemoveEntries(s.queue, s.total, s.accepted, 0);
    RemoveMirrors(s.queue, s.store, 0);
    RemoveFates(s.queue, s.fate, 0, Sent(BodyOf(s, e)));
  }

  /** An urgent command at the head. */
  lemma UrgedMirrors(queue: seq<Entry>, store: map<int, Record>, e: Entry)
    requires Mirrored(queue, store) && !Stored(e)
    ensures Mirrored([e] + queue, store)
  {
    var q := [e] + queue;
    assert forall i :: 0 <= i < |queue| ==> q[i + 1] == queue[i];
    hide HasRecord;
    forall n | n in store ensures exists k :: 0 <= k < |q| && Stored(q[k]) && q[k].seqno == n {
      var k :| 0 <= k < |queue| && Stored(queue[k]) && queue[k].seqno == n;
      assert q[k + 1] == queue[k];
    }
  }

  lemma UrgedFates(queue: seq<Entry>, fate: seq<Fate>, e: Entry)
    requires OneFate(queue, fate) && e.ticket < 0
    ensures OneFate([e] + queue, fate)
  {
    var q := [e] + queue;
    assert forall i :: 0 < i < |q| ==> q[i] == queue[i - 1];
    forall t | 0 <= t < |fate| && fate[t].Waiting? ensures exists k :: 0 <= k < |q| && q[k].ticket == t {
      var k :| 0 <= k < |queue| && queue[k].ticket == t;
      assert q[k + 1].ticket == t;
    }
    forall i, j | 0 <= i < j < |q| && q[i].ticket >= 0 ensures q[i].ticket != q[j].ticket {
      assert queue[i - 1].ticket != queue[j - 1].ticket;
    }
  }

  lemma UrgedEntries(queue: seq<Entry>, total: int, accepted: seq<Command>, e: Entry)
    requires EntriesOk(queue, total, accepted) && NumbersDiffer(queue) && EntryOk(e, total, accepted) && !Stored(e)
    ensures EntriesOk([e] + queue, total, accepted) && NumbersDiffer([e] + queue)
  {
  }

  lemma UrgedKeepsInv(s: State, c: Command)
    requires Inv(s) && Urgent(c)
    ensures Inv(Urged(s, c))
  {
    var e := Entry(-1, c, 0, -1, false);
    assert EntryOk(e, s.total, s.accepted);
    hide EntriesOk, NumbersDiffer, EntryOk, Counted, SentOnce, Mirrored, OneFate;
    UrgedMirrors(s.queue, s.store, e);
    UrgedFates(s.queue, s.fate, e);
    UrgedEntries(s.queue, s.total, s.accepted, e);
  }

  // ---- restarts

  /** What restoring finds under one number. */
  ghost predicate GoodRecord(n: int, r: Record, queue: seq<Entry>, k: nat, accepted: seq<Command>) {
    && 0 <= n < PERSISTENCE_SEQNO_LIMIT && 0 <= r.ticket < |accepted| && accepted[r.ticket] == r.command
    && k < |queue| && Stored(queue[k]) && queue[k].seqno == n && queue[k].ticket == r.ticket
    && queue[k].command == r.command && !Urgent(r.command)
  }

  lemma RecordIsGood(queue: seq<Entry>, store: map<int, Record>, total: int, accepted: seq<Command>, n: int)
    returns (k: nat)
    requires EntriesOk(queue, total, accepted) && Mirrored(queue, store) && n in store
    ensures GoodRecord(n, store[n], queue, k, accepted)
  {
    var i :| 0 <= i < |queue| && Stored(queue[i]) && queue[i].seqno == n;
    assert EntryOk(queue[i], total, accepted) && HasRecord(queue[i], store);
    k := i;
  }

  ghost predicate AllGood(queue: seq<Entry>, store: map<int, Record>, accepted: seq<Command>) {
    forall n :: n in store ==> exists k: nat :: GoodRecord(n, store[n], queue, k, accepted)
  }

  lemma RecordsAreGood(s: State)
    requires Inv(s)
    ensures AllGood(s.queue, s.store, s.accepted)
  {
    hide Counted, EntriesOk, NumbersDiffer, Mirrored, OneFate, SentOnce;
    forall n | n in s.store ensures exists k: nat :: GoodRecord(n, s.store[n], s.queue, k, s.accepted) {
      var k := RecordIsGood(s.queue, s.store, s.total, s.accepted, n);
    }
  }

  lemma RestoredAt(store: map<int, Record>, i: nat)
    requires i < |FromRecords(store)|
    ensures var keys := SortedKeys(store.Keys);
            keys[i] in store && FromRecords(store)[i] == FromRecord(store, keys[i]) && keys[i] <= Greatest(store)
  {
    var keys := SortedKeys(store.Keys);
    assert keys[i] in keys;
  }

  lemma GreatestIs(queue: seq<Entry>, store: map<int, Record>, accepted: seq<Command>)
    requires AllGood(queue, store, accepted)
    ensures 0 <= Greatest(store) < PERSISTENCE_SEQNO_LIMIT
    ensures Greatest(store) == Greatest(store) % PERSISTENCE_SEQNO_LIMIT
  {
    var keys := SortedKeys(store.Keys);
    if keys != [] {
      assert keys[|keys| - 1] in store;
    }
  }

  lemma RestoredEntries(queue: seq<Entry>, store: map<int, Record>, accepted: seq<Command>)
    requires AllGood(queue, store, accepted)
    ensures EntriesOk(FromRecords(store), Greatest(store), accepted) && NumbersDiffer(FromRecords(store))
    ensures Mirrored(FromRecords(store), store)
  {
    var q, keys := FromRecords(store), SortedKeys(store.Keys);
    hide FromRecords, SortedKeys, Greatest;
    forall i | 0 <= i < |q| ensures EntryOk(q[i], Greatest(store), accepted) && q[i].seqno == q[i].serial == keys[i] {
      RestoredAt(store, i);
      var k: nat :| GoodRecord(keys[i], store[keys[i]], queue, k, accepted);
    }
    forall i | 0 <= i < |q| ensures q[i].ticket >= 0 && HasRecord(q[i], store) {
      RestoredAt(store, i);
      assert EntryOk(q[i], Greatest(store), accepted);
    }
    forall n | n in store ensures exists i :: 0 <= i < |q| && Stored(q[i]) && q[i].seqno == n {
      assert n in keys;
      var i :| 0 <= i < |keys| && keys[i] == n;
      assert EntryOk(q[i], Greatest(store), accepted) && q[i].ticket >= 0;
    }
  }

  /** Stored commands are found again. */
  lemma FoundAgain(queue: seq<Entry>, store: map<int, Record>, k: nat) returns (i: nat)
    requires Mirrored(queue, store) && k < |queue| && Stored(queue[k])
    ensures i < |FromRecords(store)| && FromRecords(store)[i].ticket == queue[k].ticket
    ensures FromRecords(store)[i].seqno == queue[k].seqno
  {
    var keys, n := SortedKeys(store.Keys), queue[k].seqno;
    assert HasRecord(queue[k], store);
    assert n in keys;
    i :| 0 <= i < |keys| && keys[i] == n;
    hide FromRecords, SortedKeys;
    RestoredAt(store, i);
  }

  lemma RestoredFates(queue: seq<Entry>, store: map<int, Record>, fate: seq<Fate>, accepted: seq<Command>)
    requires Mirrored(queue, store) && NumbersDiffer(queue) && OneFate(queue, fate)
    requires AllGood(queue, store, accepted)
    ensures OneFate(FromRecords(store), MarkAll(fate, Unstored(queue), NotStored))
  {
    var q, keys, now := FromRecords(store), SortedKeys(store.Keys), MarkAll(fate, Unstored(queue), NotStored);
    hide FromRecords, SortedKeys, Greatest, NumbersDiffer;
    forall t | 0 <= t < |now| && now[t].Waiting? ensures exists i :: 0 <= i < |q| && q[i].ticket == t {
      var k :| 0 <= k < |queue| && queue[k].ticket == t;
      assert !Stored(queue[k]) ==> t in Unstored(queue);
      var i := FoundAgain(queue, store, k);
      assert q[i].ticket == t;
    }
    forall i | 0 <= i < |q|
      ensures 0 <= q[i].ticket < |fate| && now[q[i].ticket].Waiting?
      ensures exists k: nat :: GoodRecord(keys[i], store[keys[i]], queue, k, accepted) && queue[k].ticket == q[i].ticket
    {
      RestoredAt(store, i);
      var k: nat :| GoodRecord(keys[i], store[keys[i]], queue, k, accepted);
      OnlyStored(queue, fate, k);
    }
    forall i, j | 0 <= i < j < |q| ensures q[i].ticket != q[j].ticket {
      var a: nat :| GoodRecord(keys[i], store[keys[i]], queue, a, accepted) && queue[a].ticket == q[i].ticket;
      var b: nat :| GoodRecord(keys[j], store[keys[j]], queue, b, accepted) && queue[b].ticket == q[j].ticket;
      assert keys[i] < keys[j];
      assert a < b || b < a;
    }
  }

  lemma OnlyStored(queue: seq<Entry>, fate: seq<Fate>, k: nat)
    requires OneFate(queue, fate) && k < |queue| && Stored(queue[k]) && queue[k].ticket >= 0
    ensures queue[k].ticket < |fate| && fate[queue[k].ticket].Waiting? && queue[k].ticket !in Unstored(queue)
  {
  }

  lemma MarkAllSent(accepted: seq<Command>, fate: seq<Fate>, sent: seq<int>, ts: set<int>, f: Fate)
    requires SentOnce(accepted, fate, sent) && !f.Sent?
    requires forall t :: 0 <= t < |fate| && t in ts ==> fate[t].Waiting?
    ensures SentOnce(accepted, MarkAll(fate, ts, f), sent)
  {
  }

  lemma QueuedWait(queue: seq<Entry>, fate: seq<Fate>)
    requires OneFate(queue, fate)
    ensures forall t :: 0 <= t < |fate| ==> (fate[t].Waiting? <==> t in Tickets(queue))
    ensures Unstored(queue) <= Tickets(queue)
  {
  }

  lemma NothingQueued(fate: seq<Fate>)
    requires forall t :: 0 <= t < |fate| ==> !fate[t].Waiting?
    ensures NumbersDiffer([]) && Mirrored([], map[]) && OneFate([], fate)
  {
  }

  lemma RestoredKeepsInv(s: State)
    requires Inv(s)
    ensures Inv(Restarted(s, true))
  {
    RecordsAreGood(s);
    hide AllGood, NumbersDiffer, Mirrored, OneFate, SentOnce, FromRecords, Greatest, MarkAll, Unstored, Tickets,
      EntriesOk, SortedKeys, Rising;
    GreatestIs(s.queue, s.store, s.accepted);
    RestoredEntries(s.queue, s.store, s.accepted);
    RestoredFates(s.queue, s.store, s.fate, s.accepted);
    assert SentOnce(s.accepted, MarkAll(s.fate, Unstored(s.queue), NotStored), s.sent) by {
      QueuedWait(s.queue, s.fate);
      MarkAllSent(s.accepted, s.fate, s.sent, Unstored(s.queue), NotStored);
    }
  }

  lemma DeletedKeepsInv(s: State)
    requires Inv(s)
    ensures Inv(Restarted(s, false))
  {
    QueuedWait(s.queue, s.fate);
    hide AllGood, NumbersDiffer, Mirrored, OneFate, SentOnce, FromRecords, Greatest, Unstored, Tickets, EntriesOk;
    var fate := MarkAll(s.fate, Tickets(s.queue), Deleted);
    MarkAllSent(s.accepted, s.fate, s.sent, Tickets(s.queue), Deleted);
    NothingQueued(fate);
    assert EntriesOk([], 0, s.accepted) by { NoEntries(s.accepted); }
  }

  lemma NoEntries(accepted: seq<Command>)
    ensures EntriesOk([], 0, accepted)
  {
  }

  /** Every safe step keeps the invariant. */
  lemma StepKeepsInv(s: State, step: Step, opts: Settings)
    requires Inv(s) && Enabled(s, step) && Safe(s, step, opts)
    ensures Inv(Do(s, step, opts))
  {
    hide Inv, Put, Remove, Restarted, Urged, TakenOut, FreeNumber, FreeZero, Displaces;
    match step
    case Add(c) =>
      var p := Put(s, c, opts.qos0);
      var k := FirstPublishAt(p.queue);
      PutKeepsInv(s, c, opts.qos0);
      if Displaces(s, c, opts) && k < |p.queue| { RemoveKeepsInv(p, k, Displaced); }
    case Urge(c) => UrgedKeepsInv(s, c);
    case Dispatch => TakenOutKeepsInv(s);
    case Restart(restores) =>
      if restores { RestoredKeepsInv(s); } else { DeletedKeepsInv(s); }
    case CrashInAdd(c) =>
      PutKeepsInv(s, c, opts.qos0);
      RestoredKeepsInv(Put(s, c, opts.qos0));
    case CrashInDispatch =>
      RemoveKeepsInv(s, 0, Stopped);
      RestoredKeepsInv(Remove(s, 0, Stopped));
  }

  // ---- and only safe ones

  /** Every waiting command is in the queue and, if it was stored, would be found by a restart. */
  ghost predicate Intact(s: State) {
    forall t :: 0 <= t < |s.fate| && s.fate[t].Waiting? ==> exists k :: Holds(s, t, k)
  }

  ghost predicate Holds(s: State, t: int, k: int) {
    0 <= k < |s.queue| && s.queue[k].ticket == t && (Stored(s.queue[k]) ==> HasRecord(s.queue[k], s.store))
  }

  lemma InvIntact(s: State)
    requires Inv(s)
    ensures Intact(s)
  {
    hide Counted, EntriesOk, NumbersDiffer, SentOnce;
    forall t | 0 <= t < |s.fate| && s.fate[t].Waiting? ensures exists k :: Holds(s, t, k) {
      var k :| 0 <= k < |s.queue| && s.queue[k].ticket == t;
      assert Holds(s, t, k);
    }
  }

  /** t was stored and still waits, and no record is its own. */
  ghost predicate Loses(s: State, t: int) {
    && 0 <= t < |s.fate| && s.fate[t].Waiting?
    && (forall n :: n in s.store ==> s.store[n].ticket != t)
    && (forall k :: 0 <= k < |s.queue| && s.queue[k].ticket == t ==> Stored(s.queue[k]))
  }

  lemma LosesNotIntact(s: State, t: int)
    requires Loses(s, t)
    ensures !Intact(s)
  {
    forall k ensures !Holds(s, t, k) {
    }
  }

  lemma LosesForGood(s: State, t: int)
    requires Loses(s, t)
    ensures Loses(Restarted(s, true), t)
  {
    hide SortedKeys, Rising;
    var q := FromRecords(s.store);
    forall i | 0 <= i < |q| ensures q[i].ticket != t {
      RestoredAt(s.store, i);
    }
    assert t !in Unstored(s.queue);
  }

  /** Entries with one ticket are one entry. */
  lemma SameEntry(queue: seq<Entry>, fate: seq<Fate>, i: nat, j: nat)
    requires OneFate(queue, fate) && i < |queue| && j < |queue| && queue[i].ticket == queue[j].ticket >= 0
    ensures i == j
  {
    assert i < j || j < i || i == j;
  }

  /** The record of ticket t is the only one with that ticket. */
  lemma OnlyRecord(s: State, k: nat)
    requires Inv(s) && k < |s.queue| && Stored(s.queue[k])
    ensures s.queue[k].ticket >= 0 && HasRecord(s.queue[k], s.store)
    ensures s.queue[k].ticket < |s.fate| && s.fate[s.queue[k].ticket].Waiting?
    ensures forall n :: n in s.store && s.store[n].ticket == s.queue[k].ticket ==> n == s.queue[k].seqno
    ensures forall i :: 0 <= i < |s.queue| && s.queue[i].ticket == s.queue[k].ticket ==> i == k
  {
    hide Counted, EntriesOk, NumbersDiffer, SentOnce;
    assert HasRecord(s.queue[k], s.store);
    forall n | n in s.store && s.store[n].ticket == s.queue[k].ticket ensures n == s.queue[k].seqno {
      var i :| 0 <= i < |s.queue| && Stored(s.queue[i]) && s.queue[i].seqno == n;
      assert HasRecord(s.queue[i], s.store);
      SameEntry(s.queue, s.fate, i, k);
    }
    forall i | 0 <= i < |s.queue| && s.queue[i].ticket == s.queue[k].ticket ensures i == k {
      SameEntry(s.queue, s.fate, i, k);
    }
  }

  lemma StoredUnder(s: State, n: int) returns (k: nat)
    requires Inv(s) && n in s.store
    ensures k < |s.queue| && Stored(s.queue[k]) && s.queue[k].seqno == n
  {
    hide Counted, EntriesOk, NumbersDiffer, SentOnce, OneFate;
    var i :| 0 <= i < |s.queue| && Stored(s.queue[i]) && s.queue[i].seqno == n;
    k := i;
  }

  /** A record is overwritten. */
  lemma PutLoses(s: State, c: Command, qos0: bool) returns (k: nat)
    requires Inv(s) && !FreeNumber(s, c, qos0)
    ensures k < |s.queue| && s.queue[k].seqno == NextNumber(s.seqno) && Loses(Put(s, c, qos0), s.queue[k].ticket)
  {
    k := StoredUnder(s, NextNumber(s.seqno));
    OnlyRecord(s, k);
    hide Inv, NextNumber, Persisted;
  }

  /** The record with number 0 is taken out with a command that has none. */
  lemma RemoveLoses(s: State, k: nat, f: Fate) returns (t: int)
    requires Inv(s) && k < |s.queue| && !FreeZero(s, k)
    ensures Loses(Remove(s, k, f), t)
  {
    var i := StoredUnder(s, 0);
    OnlyRecord(s, i);
    t := s.queue[i].ticket;
    assert s.queue[k].seqno == 0 by { assert EntryOk(s.queue[k], s.total, s.accepted); }
    assert s.queue[k].ticket != t;
    hide Inv, HasRecord;
    var q := Remove(s, k, f).queue;
    assert forall j :: 0 <= j < |q| ==> q[j] == s.queue[if j < k then j else j + 1];
  }

  lemma RemoveStillLoses(s: State, t: int, k: nat, f: Fate)
    requires Loses(s, t) && k < |s.queue| && s.queue[k].ticket != t
    ensures Loses(Remove(s, k, f), t)
  {
    var q := Remove(s, k, f).queue;
    assert forall j :: 0 <= j < |q| ==> q[j] == s.queue[if j < k then j else j + 1];
  }

  /** The displaced command has the number of the one that displaces it: the new record goes with the old. */
  lemma NewLost(s: State, c: Command, qos0: bool, i: nat)
    requires Inv(s) && Persisted(c, qos0) && i < |s.queue| && s.queue[i].seqno == NextNumber(s.seqno)
    ensures Loses(Remove(Put(s, c, qos0), i, Displaced), |s.accepted|)
  {
    RecordsAreGood(s);
    var p, u := Put(s, c, qos0), |s.accepted|;
    var q := Remove(p, i, Displaced).queue;
    assert s.queue[i].ticket < u && forall j :: 0 <= j < |s.queue| ==> s.queue[j].ticket < u by {
      assert forall j :: 0 <= j < |s.queue| ==> EntryOk(s.queue[j], s.total, s.accepted);
    }
    hide Counted, EntriesOk, NumbersDiffer, Mirrored, OneFate, NextNumber, Persisted;
    assert p.queue[i] == s.queue[i];
    assert forall j :: 0 <= j < |q| - 1 ==> q[j] == s.queue[if j < i then j else j + 1];
    forall n | n in s.store ensures s.store[n].ticket < u {
      var k: nat :| GoodRecord(n, s.store[n], s.queue, k, s.accepted);
    }
  }

  lemma AddedLoses(s: State, c: Command, opts: Settings) returns (t: int)
    requires Inv(s) && !FreeNumber(s, c, opts.qos0)
    ensures Loses(Added(s, c, opts), t)
  {
    var i := PutLoses(s, c, opts.qos0);
    var p := Put(s, c, opts.qos0);
    var k := FirstPublishAt(p.queue);
    t := s.queue[i].ticket;
    if Displaces(s, c, opts) && k < |p.queue| {
      if p.queue[k].ticket != t {
        hide Loses, Remove, Inv, Displaces, FirstPublishAt, Put;
        RemoveStillLoses(p, t, k, Displaced);
      } else {
        Twins(s, c, opts.qos0, i, k);
        hide Loses, Remove, Inv, Displaces, FirstPublishAt, Put;
        NewLost(s, c, opts.qos0, i);
        t := |s.accepted|;
      }
    }
  }

  lemma Twins(s: State, c: Command, qos0: bool, i: nat, k: nat)
    requires Inv(s) && i < |s.queue| && k <= |s.queue| && Stored(s.queue[i])
    requires Put(s, c, qos0).queue[k].ticket == s.queue[i].ticket
    ensures k == i
  {
    OnlyRecord(s, i);
    assert s.queue[i].ticket < |s.accepted|;
    assert k < |s.queue| ==> Put(s, c, qos0).queue[k] == s.queue[k];
    hide Inv;
  }

  lemma SafeStepIntact(s: State, step: Step, opts: Settings)
    requires Inv(s) && Enabled(s, step) && Safe(s, step, opts)
    ensures Intact(Do(s, step, opts))
  {
    StepKeepsInv(s, step, opts);
    hide Inv, Do, Safe;
    InvIntact(Do(s, step, opts));
  }

  lemma UnsafeStepLoses(s: State, step: Step, opts: Settings) returns (t: int)
    requires Inv(s) && Enabled(s, step) && !Safe(s, step, opts)
    ensures Loses(Do(s, step, opts), t)
  {
    hide Inv, Loses, Restarted, FreeNumber, FreeZero, Displaces, Put;
    match step
    case Add(c) =>
      if !FreeNumber(s, c, opts.qos0) {
        t := AddedLoses(s, c, opts);
      } else {
        PutKeepsInv(s, c, opts.qos0);
        var p := Put(s, c, opts.qos0);
        t := RemoveLoses(p, FirstPublishAt(p.queue), Displaced);
      }
    case Dispatch =>
      t := RemoveLoses(s, 0, Sent(BodyOf(s, s.queue[0])));
      SameLoss(Remove(s, 0, Sent(BodyOf(s, s.queue[0]))), TakenOut(s), t);
    case CrashInAdd(c) =>
      var k := PutLoses(s, c, opts.qos0);
      t := s.queue[k].ticket;
      LosesForGood(Put(s, c, opts.qos0), t);
    case CrashInDispatch =>
      t := RemoveLoses(s, 0, Stopped);
      LosesForGood(Remove(s, 0, Stopped), t);
  }

  lemma SameLoss(a: State, b: State, t: int)
    requires Loses(a, t) && b.fate == a.fate && b.queue == a.queue && b.store == a.store
    ensures Loses(b, t)
  {
  }

  /** A step leaves every waiting command with its own record exactly if the numbers it writes and clears are free. */
  lemma SafeExact(s: State, step: Step, opts: Settings)
    requires Inv(s) && Enabled(s, step)
    ensures Intact(Do(s, step, opts)) <==> Safe(s, step, opts)
  {
    if Safe(s, step, opts) {
      SafeStepIntact(s, step, opts);
    } else {
      var t := UnsafeStepLoses(s, step, opts);
      hide Loses, Intact, Inv, Safe, Do;
      LosesNotIntact(Do(s, step, opts), t);
    }
  }

  // ---- counter and store in place

  class Persistence {
    var commandSeqno: int
    var records: map<int, Record>

    constructor ()
      ensures commandSeqno == 0 && records == map[]
    {
      commandSeqno, records := 0, map[];
    }

    /** MQTTAsync_persistCommand, for the commands that MQTTAsync_addCommand calls it for; `s` is the state before. */
    method PersistCommand(c: Command, ticket: int, ghost qos0: bool, ghost s: State) returns (seqno: int)
      requires s.seqno == commandSeqno && s.store == records && ticket == |s.accepted|
      requires !c.Connect? && c != Disconnect(true) && (c.Publish? ==> c.qos != 0 || qos0)
      modifies this
      ensures commandSeqno == if old(commandSeqno) == 999999 then 0 else old(commandSeqno) + 1
      ensures if c == Disconnect(false) then seqno == 0 && records == old(records)
              else seqno == commandSeqno && records == old(records)[commandSeqno := Record(ticket, c)]
      ensures var p := Put(s, c, qos0);
              commandSeqno == p.seqno && records == p.store && seqno == p.queue[|s.queue|].seqno
    {
      seqno := 0;
      commandSeqno := commandSeqno + 1;
      if commandSeqno == PERSISTENCE_SEQNO_LIMIT {
        commandSeqno := 0;
      }
      if c.Subscribe? || c.Unsubscribe? || c.Publish? {
        records := records[commandSeqno := Record(ticket, c)];
        seqno := commandSeqno;
      }
    }

    /** MQTTAsync_unpersistCommand. */
    method UnpersistCommand(seqno: int, ghost s: State, ghost k: nat, ghost f: Fate)
      requires s.store == records && k < |s.queue| && s.queue[k].seqno == seqno
      modifies this`records
      ensures records == old(records) - {seqno} && records == Remove(s, k, f).store
    {
      records := records - {seqno};
    }
  }
}
