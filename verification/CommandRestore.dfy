/** The command queue of MQTTAsync across a restart: what MQTTAsync_restoreCommands makes of the records that the queued
    commands have in the persistent store. */
module CommandRestore {
  import opened AsyncQueue
  import CommandRuns
  import opened CommandStore
  import opened Sequences

  function SettingsOf(c: Async): Settings {
    var o := c.options;
    Settings(o.NoOptions? || o.version < 2 || o.persistQoS0, o.CreateOptions?,
             if o.CreateOptions? then o.maxBufferedMessages else 0)
  }

  predicate Restores(c: Async) {
    c.options.NoOptions? || c.options.version < 2 || c.options.restoreMessages
  }

  // ---- one client's part of the queue

  function Of(c: Async, queue: seq<Queued>): seq<Queued> {
    if queue == [] then [] else (if queue[0].client == c then [queue[0]] else []) + Of(c, queue[1..])
  }

  function Wrapped(c: Async, entries: seq<Entry>): (r: seq<Queued>)
    ensures |r| == |entries| && forall i :: 0 <= i < |entries| ==> r[i] == Queued(c, entries[i].command)
  {
    seq(|entries|, i requires 0 <= i < |entries| => Queued(c, entries[i].command))
  }

  /** `s` is what the client has in the queue. */
  predicate Follows(c: Async, queue: seq<Queued>, s: State) {
    Of(c, queue) == Wrapped(c, s.queue)
  }

  lemma {:induction false} OfConcat(c: Async, a: seq<Queued>, b: seq<Queued>)
    ensures Of(c, a + b) == Of(c, a) + Of(c, b)
  {
    if a == [] {
      assert a + b == b;
    } else {
      assert (a + b)[1..] == a[1..] + b && (a + b)[0] == a[0];
      OfConcat(c, a[1..], b);
      var head := if a[0].client == c then [a[0]] else [];
      var x, y := Of(c, a[1..]), Of(c, b);
      assert Of(c, a) == head + x && Of(c, a + b) == head + Of(c, a[1..] + b);
      hide Of;
      assert head + (x + y) == head + x + y;
    }
  }

  lemma OfOne(c: Async, q: Queued)
    ensures Of(c, [q]) == if q.client == c then [q] else []
  {
    assert [q][1..] == [];
  }

  /** Where the k-th command of the queue is among those of its client. */
  lemma OfWithout(c: Async, queue: seq<Queued>, k: nat)
    requires k < |queue|
    ensures var m := |Of(c, queue[..k])|;
            if queue[k].client == c
            then m < |Of(c, queue)| && Of(c, queue)[m] == queue[k] && Of(c, queue)[..m] == Of(c, queue[..k])
                 && Of(c, Without(queue, k)) == Without(Of(c, queue), m)
            else Of(c, Without(queue, k)) == Of(c, queue)
  {
    assert queue == queue[..k] + ([queue[k]] + queue[k + 1..]);
    OfConcat(c, queue[..k], [queue[k]] + queue[k + 1..]);
    OfConcat(c, [queue[k]], queue[k + 1..]);
    OfConcat(c, queue[..k], queue[k + 1..]);
    OfOne(c, queue[k]);
  }

  lemma {:induction false} OfMembers(c: Async, queue: seq<Queued>)
    ensures forall q :: q in Of(c, queue) <==> q in queue && q.client == c
  {
    if queue != [] {
      OfMembers(c, queue[1..]);
      assert queue == [queue[0]] + queue[1..];
    }
  }

  /** Appending a command is MQTTAsync_persistCommand's step for its client, and no step for the others. */
  lemma AppendFollows(c: Async, queue: seq<Queued>, s: State, q: Queued, qos0: bool)
    requires Follows(c, queue, s)
    ensures Follows(c, queue + [q], if q.client == c then Put(s, q.command, qos0) else s)
  {
    OfConcat(c, queue, [q]);
    OfOne(c, q);
  }

  lemma UrgeFollows(c: Async, queue: seq<Queued>, s: State, q: Queued)
    requires Follows(c, queue, s)
    ensures Follows(c, [q] + queue, if q.client == c then Urged(s, q.command) else s)
  {
    OfConcat(c, [q], queue);
    OfOne(c, q);
  }

  /** The command that is dispatched is the client's first, and what it finds in the store is what was accepted. */
  lemma DispatchFollows(c: Async, queue: seq<Queued>, s: State, k: nat, f: Fate)
    requires Follows(c, queue, s) && k < |queue| && First(queue, k)
    ensures if queue[k].client == c
            then s.queue != [] && s.queue[0].command == queue[k].command && Follows(c, Without(queue, k), TakenOut(s))
            else Follows(c, Without(queue, k), s)
    ensures queue[k].client == c && Inv(s) && s.queue[0].ticket >= 0 && FreeZero(s, 0) ==>
              BodyOf(s, s.queue[0]) == Body(queue[k].command)
  {
    OfWithout(c, queue, k);
    if queue[k].client == c {
      OfMembers(c, queue[..k]);
      var front := Of(c, queue[..k]);
      if front != [] { assert front[0] in front; }
      assert Of(c, queue)[0] == Wrapped(c, s.queue)[0];
      assert Wrapped(c, TakenOut(s).queue) == Without(Wrapped(c, s.queue), 0);
      if Inv(s) && FreeZero(s, 0) { TakenOutKeepsInv(s); }
    }
  }

  /** What a full buffer displaces is the client's first publish. */
  lemma EvictFollows(c: Async, queue: seq<Queued>, s: State, k: nat)
    requires Follows(c, queue, s) && k < |queue| && FirstPublish(queue, k)
    ensures var m := FirstPublishAt(s.queue);
            if queue[k].client == c
            then m < |s.queue| && Follows(c, Without(queue, k), Remove(s, m, Displaced))
            else Follows(c, Without(queue, k), s)
  {
    OfWithout(c, queue, k);
    if queue[k].client == c {
      var front, own := Of(c, queue[..k]), Wrapped(c, s.queue);
      var m := |front|;
      OfMembers(c, queue[..k]);
      assert own[m] == queue[k] && s.queue[m].command.Publish?;
      forall i | 0 <= i < m ensures !s.queue[i].command.Publish? {
        assert own[i] == front[i] && front[i] in front;
      }
      assert m == FirstPublishAt(s.queue);
      assert Wrapped(c, Without(s.queue, m)) == Without(own, m);
    }
  }

  /** The counter of buffered messages is the number of publishes in the client's state. */
  lemma {:induction false} BufferedFollows(c: Async, queue: seq<Queued>, entries: seq<Entry>)
    requires Of(c, queue) == Wrapped(c, entries)
    ensures |Publishes(c, queue)| == Buffered(entries)
  {
    if queue != [] {
      var rest := queue[1..];
      if queue[0].client == c {
        assert Of(c, queue)[1..] == Of(c, rest);
        assert Wrapped(c, entries)[0] == queue[0] && Wrapped(c, entries[1..]) == Wrapped(c, entries)[1..];
        BufferedFollows(c, rest, entries[1..]);
      } else {
        assert Of(c, queue) == Of(c, rest);
        BufferedFollows(c, rest, entries);
      }
    } else {
      assert entries == [];
    }
  }

  /** MQTTAsync_addCommand does the client's step Add: what CommandQueue.AddCommand leaves in the queue follows it. */
  lemma AddFollows(c: Async, queue: seq<Queued>, s: State, q: Queued, n: int, at: nat, now: seq<Queued>)
    requires Follows(c, queue, s) && q.client == c && !Urgent(q.command) && n == |Publishes(c, queue)|
    requires if q.command.Publish? && Full(c, n)
             then at < |queue| && PublishOf(c, queue[at]) && FirstPublish(queue, at) && now == Without(queue, at) + [q]
             else now == queue + [q]
    ensures Follows(c, now, Added(s, q.command, SettingsOf(c)))
  {
    var opts := SettingsOf(c);
    BufferedFollows(c, queue, s.queue);
    assert Displaces(s, q.command, opts) <==> q.command.Publish? && Full(c, n);
    AppendFollows(c, queue, s, q, opts.qos0);
    hide Put, Of, Publishes, Buffered, Displaces, FirstPublish, Remove, FirstPublishAt, Wrapped;
    if q.command.Publish? && Full(c, n) {
      StillFirst(queue, q, at);
      EvictFollows(c, queue + [q], Put(s, q.command, opts.qos0), at);
    }
  }

  /** The command that is added last in the client's queue, and it has its record exactly if it is a request, a publish
      with QoS 1 or 2, or one with QoS 0 whose client was not created with persistQoS0 off. */
  lemma RecordedExactly(c: Async, s: State, cmd: Command)
    requires Counted(s) && !Urgent(cmd) && (c.options.CreateOptions? ==> c.options.maxBufferedMessages > 0)
    ensures var o, entries := c.options, Added(s, cmd, SettingsOf(c)).queue;
            && entries != []
            && var e := entries[|entries| - 1];
               && e.ticket == |s.accepted| && e.command == cmd
               && (Stored(e) <==>
                     || cmd.Subscribe? || cmd.Unsubscribe?
                     || (cmd.Publish? && (cmd.qos != 0 || o.NoOptions? || o.version < 2 || o.persistQoS0)))
  {
    var opts := SettingsOf(c);
    var p := Put(s, cmd, opts.qos0);
    var k := FirstPublishAt(p.queue);
    if Displaces(s, cmd, opts) && k == |s.queue| {
      CommandRuns.NoneBuffered(s.queue);
    }
  }

  lemma StillFirst(queue: seq<Queued>, q: Queued, at: nat)
    requires at < |queue| && FirstPublish(queue, at)
    ensures FirstPublish(queue + [q], at) && (queue + [q])[at] == queue[at]
    ensures Without(queue + [q], at) == Without(queue, at) + [q]
  {
    assert (queue + [q])[at + 1..] == queue[at + 1..] + [q];
  }

  // ---- what a restart brings back

  ghost predicate Distinct(order: seq<Async>) {
    forall i, j :: 0 <= i < j < |order| ==> order[i] != order[j]
  }

  function Back(c: Async, s: State): seq<Queued> {
    Wrapped(c, Restarted(s, Restores(c)).queue)
  }

  /** The queue after all clients have been created again, in this order. */
  function Restored(order: seq<Async>, states: map<Async, State>): seq<Queued>
    requires forall c :: c in order ==> c in states
  {
    if order == [] then []
    else
      var n := |order| - 1;
      Restored(order[..n], states) + Back(order[n], states[order[n]])
  }

  /** Elements found at different places of another sequence. */
  lemma {:induction false} Places<T>(a: seq<T>, b: seq<T>, at: seq<nat>)
    requires |at| == |a| && forall i :: 0 <= i < |a| ==> at[i] < |b| && b[at[i]] == a[i]
    requires forall i, j :: 0 <= i < j < |at| ==> at[i] != at[j]
    ensures multiset(a) <= multiset(b)
  {
    if a != [] {
      var n := |a| - 1;
      var k := at[n];
      var c := Without(b, k);
      var to := seq(n, i requires 0 <= i < n => if at[i] < k then at[i] else at[i] - 1);
      assert forall i :: 0 <= i < |c| ==> c[i] == b[if i < k then i else i + 1];
      Places(a[..n], c, to);
      assert a == a[..n] + [a[n]];
      assert b == b[..k] + ([b[k]] + b[k + 1..]);
    }
  }

  lemma {:induction false} PlacesOf(s: State, n: nat) returns (at: seq<nat>)
    requires Inv(s) && n <= |FromRecords(s.store)|
    ensures |at| == n
    ensures forall i :: 0 <= i < n ==>
              at[i] < |s.queue| && s.queue[at[i]].ticket == FromRecords(s.store)[i].ticket
              && s.queue[at[i]].command == FromRecords(s.store)[i].command
  {
    hide Inv, FromRecords;
    if n == 0 {
      at := [];
    } else {
      at := PlacesOf(s, n - 1);
      var k := CommandRuns.CommandBack(s, n - 1);
      at := at + [k];
    }
  }

  lemma BackOnce(s: State)
    requires Inv(s)
    ensures var q := FromRecords(s.store);
            forall i, j :: 0 <= i < j < |q| ==> q[i].ticket >= 0 && q[i].ticket != q[j].ticket
  {
    RestoredKeepsInv(s);
    var q := FromRecords(s.store);
    assert OneFate(q, MarkAll(s.fate, Unstored(s.queue), NotStored));
    hide Inv, FromRecords, MarkAll, Unstored;
    forall i | 0 <= i < |q| ensures q[i].ticket >= 0 {
      var k := CommandRuns.CommandBack(s, i);
    }
  }

  lemma ComesFromQueue(c: Async, s: State)
    requires Inv(s)
    ensures multiset(Back(c, s)) <= multiset(Wrapped(c, s.queue))
  {
    hide Inv, FromRecords;
    if Restores(c) {
      var at := PlacesOf(s, |FromRecords(s.store)|);
      BackOnce(s);
      Places(Wrapped(c, FromRecords(s.store)), Wrapped(c, s.queue), at);
    } else {
      assert Back(c, s) == [];
    }
  }

  lemma {:induction false} OfFewer(c: Async, queue: seq<Queued>)
    ensures multiset(Of(c, queue)) <= multiset(queue)
  {
    if queue != [] {
      OfFewer(c, queue[1..]);
      assert queue == [queue[0]] + queue[1..];
    }
  }

  ghost predicate AllFollow(order: seq<Async>, states: map<Async, State>, queue: seq<Queued>) {
    forall c :: c in order ==> c in states && Inv(states[c]) && Follows(c, queue, states[c])
  }

  lemma InBoth<T>(a: seq<T>, b: seq<T>, x: T)
    requires multiset(a) <= multiset(b) && x in a
    ensures x in b
  {
    assert x in multiset(a);
    assert x in multiset(b);
  }

  lemma BackFromQueue(c: Async, s: State, queue: seq<Queued>)
    requires Inv(s) && Follows(c, queue, s)
    ensures multiset(Back(c, s)) <= multiset(queue)
    ensures forall q :: q in Back(c, s) ==> q.client == c && q in queue
  {
    hide Inv, Restarted, Of;
    ComesFromQueue(c, s);
    OfFewer(c, queue);
    var b := Back(c, s);
    assert forall i :: 0 <= i < |b| ==> b[i].client == c;
    hide Back;
    forall q | q in b ensures q in queue {
      InBoth(b, queue, q);
    }
  }

  /** A restart brings back commands that were queued, none of them twice. */
  lemma {:induction false} RestoredFromQueue(order: seq<Async>, states: map<Async, State>, queue: seq<Queued>)
    requires Distinct(order) && AllFollow(order, states, queue)
    ensures multiset(Restored(order, states)) <= multiset(queue)
    ensures forall q :: q in Restored(order, states) ==> q.client in order
  {
    if order != [] {
      var n := |order| - 1;
      var c := order[n];
      var a, b := Restored(order[..n], states), Back(c, states[c]);
      RestoredFromQueue(order[..n], states, queue);
      BackFromQueue(c, states[c], queue);
      hide Back, Inv, Follows;
      assert c !in order[..n] && c in order;
      forall q ensures multiset(a + b)[q] <= multiset(queue)[q] {
        assert multiset(a + b)[q] == multiset(a)[q] + multiset(b)[q];
        assert q.client == c ==> q !in a;
        assert q.client != c ==> q !in b;
      }
      forall q | q in a + b ensures q.client in order {
        assert q in a || q in b;
      }
    }
  }

  /** Each client finds its own commands again. */
  lemma {:induction false} RestoredFollows(order: seq<Async>, states: map<Async, State>, queue: seq<Queued>, c: Async)
    requires Distinct(order) && AllFollow(order, states, queue)
    ensures Of(c, Restored(order, states)) == if c in order then Back(c, states[c]) else []
  {
    hide Inv, Follows, Of, Restarted, Restores;
    if order == [] {
      OfNone(c);
    } else {
      var n := |order| - 1;
      var d := order[n];
      RestoredFollows(order[..n], states, queue, c);
      OfConcat(c, Restored(order[..n], states), Back(d, states[d]));
      OfAll(c, d, Restarted(states[d], Restores(d)).queue);
      assert order == order[..n] + [d];
    }
  }

  lemma OfNone(c: Async)
    ensures Of(c, []) == []
  {
  }

  lemma {:induction false} OfAll(c: Async, d: Async, entries: seq<Entry>)
    ensures Of(c, Wrapped(d, entries)) == if c == d then Wrapped(d, entries) else []
  {
    if entries != [] {
      OfAll(c, d, entries[1..]);
      assert Wrapped(d, entries)[1..] == Wrapped(d, entries[1..]);
      assert Wrapped(d, entries) == [Wrapped(d, entries)[0]] + Wrapped(d, entries[1..]);
    }
  }

  // ---- nothing new comes back

  lemma Twice<T>(s: seq<T>, i: nat, j: nat)
    requires i < j < |s| && s[i] == s[j]
    ensures multiset(s)[s[i]] >= 2
  {
    assert s == s[..i] + ([s[i]] + s[i + 1..]);
    assert s[i + 1..][j - i - 1] == s[j];
    assert s[j] in s[i + 1..];
  }

  lemma TwoPlaces<T>(s: seq<T>, x: T) returns (i: nat, j: nat)
    requires multiset(s)[x] >= 2
    ensures i < j < |s| && s[i] == x && s[j] == x
  {
    assert x in multiset(s);
    var k :| 0 <= k < |s| && s[k] == x;
    WithoutMultiset(s, k);
    assert x in multiset(Without(s, k));
    var l :| 0 <= l < |Without(s, k)| && Without(s, k)[l] == x;
    i, j := if l < k then l else k, if l < k then k else l + 1;
  }

  lemma FewerIds(a: seq<Queued>, b: seq<Queued>)
    requires multiset(a) <= multiset(b) && QueueIds(b)
    ensures QueueIds(a)
  {
    hide Token;
    forall i, j | 0 <= i < j < |a| && Token(a[i].command) != 0 ensures Token(a[i].command) != Token(a[j].command) {
      if a[i] == a[j] {
        Twice(a, i, j);
        var k, l := TwoPlaces(b, a[i]);
        assert false;
      } else {
        assert a[i] in multiset(a) && a[j] in multiset(a);
        assert a[i] in multiset(b) && a[j] in multiset(b);
        var k :| 0 <= k < |b| && b[k] == a[i];
        var l :| 0 <= l < |b| && b[l] == a[j];
        assert k < l || l < k;
      }
    }
  }

  lemma TakeOne<T>(a: seq<T>, b: seq<T>) returns (k: nat)
    requires a != [] && multiset(a) <= multiset(b)
    ensures k < |b| && b[k] == a[0] && multiset(a[1..]) <= multiset(Without(b, k))
  {
    assert a[0] in multiset(a);
    assert a[0] in multiset(b);
    var i :| 0 <= i < |b| && b[i] == a[0];
    WithoutMultiset(a, 0);
    WithoutMultiset(b, i);
    assert Without(a, 0) == a[1..];
    k := i;
    hide Without;
    forall x ensures multiset(a[1..])[x] <= multiset(Without(b, i))[x] {
      assert multiset(a)[x] <= multiset(b)[x];
    }
  }

  lemma {:induction false} FewerPublishes(c: Async, a: seq<Queued>, b: seq<Queued>)
    requires multiset(a) <= multiset(b)
    ensures |Publishes(c, a)| <= |Publishes(c, b)|
  {
    if a != [] {
      var k := TakeOne(a, b);
      FewerPublishes(c, a[1..], Without(b, k));
      hide Own;
      assert b == b[..k] + ([b[k]] + b[k + 1..]);
      PublishesConcat(c, b[..k], [b[k]] + b[k + 1..]);
      PublishesConcat(c, b[..k], b[k + 1..]);
      assert ([b[k]] + b[k + 1..])[1..] == b[k + 1..];
    }
  }

  // ---- restoring

  /** One pass of the loop of MQTTAsync_restoreCommands. */
  method RestoreOne(q: CommandQueue, r: Queued)
    requires q.Valid() && r.client in q.clients && !Urgent(r.command) && Numbered(r.command)
    requires Fresh(q.queue, Held(r.client.outbound, r.client.responses), Token(r.command))
    requires r.command.Publish? ==> !Full(r.client, r.client.noBufferedMessages)
    modifies q`queue, q`log, r.client`noBufferedMessages
    ensures q.Valid() && q.clients == old(q.clients) && q.queue == old(q.queue) + [r]
    ensures r.client.noBufferedMessages == old(r.client.noBufferedMessages) + |Own(r.client, r)|
  {
    hide AsyncQueue.Kept, Windowed, Publishes, Urgent, Own, HeldIds, QueueIds, Apart, Held, Fresh, Numbered, Answered,
      Awaited;
    ghost var was, past := q.queue, q.log;
    KeptAppend(was, past, r);
    LogPast(was, past);
    AnsweredAppend(past.accepted, past.dispatched, q.answers, r);
    forall c | c in q.clients ensures QueueIds(was + [r]) && Apart(c, was + [r], Held(c.outbound, c.responses)) {
      IdsAppend(was, Held(r.client.outbound, r.client.responses), r, c, Held(c.outbound, c.responses));
    }
    forall c | c in q.clients
      ensures Windowed(c, c.noBufferedMessages + |Own(c, r)|, was + [r], past.accepted + [r])
      ensures |Own(c, r)| == if PublishOf(c, r) then 1 else 0
    {
      WindowedAppend(c, c.noBufferedMessages, was, past.accepted, r);
      OwnSize(c, r);
    }
    assert QueueIds(was + [r]);
    q.queue := q.queue + [r];
    q.log := past.(accepted := past.accepted + [r], tickets := past.tickets + [|past.accepted|]);
    if r.command.Publish? {
      r.client.noBufferedMessages := r.client.noBufferedMessages + 1;
    }
  }

  /** What the loop over one client's records needs: ids that are not in use yet, and room in the window. */
  ghost predicate Restorable(queue: seq<Queued>, c: Async, n: int, held: set<int>, records: seq<Queued>) {
    && QueueIds(queue + records) && Apart(c, records, held)
    && (forall i :: 0 <= i < |records| ==>
          records[i].client == c && !Urgent(records[i].command) && Numbered(records[i].command))
    && (c.options.CreateOptions? ==> n + |Publishes(c, records)| <= c.options.maxBufferedMessages)
  }

  lemma RestorableNext(queue: seq<Queued>, c: Async, n: int, held: set<int>, records: seq<Queued>)
    requires Restorable(queue, c, n, held, records) && records != []
    ensures var r := records[0];
            && r.client == c && !Urgent(r.command) && Numbered(r.command) && Fresh(queue, held, Token(r.command))
            && (r.command.Publish? ==> !Full(c, n))
            && Restorable(queue + [r], c, n + |Own(c, r)|, held, records[1..])
            && |Publishes(c, records)| == |Own(c, r)| + |Publishes(c, records[1..])|
  {
    assert queue + [records[0]] + records[1..] == queue + records;
    assert (queue + records)[|queue|] == records[0];
    hide Urgent, Numbered;
    var all := queue + records;
    forall i | 0 <= i < |queue| && Token(records[0].command) != 0
      ensures Token(queue[i].command) != Token(records[0].command)
    {
      assert all[i] == queue[i];
    }
  }

  /** MQTTAsync_restoreCommands for a client just created. */
  method RestoreCommands(q: CommandQueue, client: Async, store: Persistence)
    requires q.Valid() && client in q.clients && store.commandSeqno == 0
    requires Restorable(q.queue, client, client.noBufferedMessages, Held(client.outbound, client.responses),
                        Wrapped(client, FromRecords(store.records)))
    modifies q`queue, q`log, client`noBufferedMessages, store`commandSeqno
    ensures q.Valid() && q.clients == old(q.clients)
    ensures q.queue == old(q.queue) + Wrapped(client, FromRecords(store.records))
    ensures store.commandSeqno == Greatest(store.records)
    ensures client.noBufferedMessages ==
      old(client.noBufferedMessages) + |Publishes(client, Wrapped(client, FromRecords(store.records)))|
  {
    hide Restorable, Publishes, Own, Held, Fresh, SortedKeys, FromRecords, Greatest;
    var keys := SortedKeys(store.records.Keys);
    ghost var records := Wrapped(client, FromRecords(store.records));
    var i := 0;
    assert records[0..] == records && records[..0] == [];
    ghost var total := client.noBufferedMessages + |Publishes(client, records)|;
    GreatestSoFar(store.records, 0);
    while i < |keys|
      invariant 0 <= i <= |keys| == |records| && q.Valid() && q.clients == old(q.clients)
      invariant q.queue == old(q.queue) + records[..i]
      invariant store.commandSeqno == SoFar(keys, i)
      invariant client.noBufferedMessages + |Publishes(client, records[i..])| == total
      invariant Restorable(q.queue, client, client.noBufferedMessages, Held(client.outbound, client.responses),
                           records[i..])
    {
      ghost var rest := records[i..];
      RestorableNext(q.queue, client, client.noBufferedMessages, Held(client.outbound, client.responses), rest);
      assert rest[0] == records[i] && rest[1..] == records[i + 1..] && records[..i + 1] == records[..i] + [records[i]];
      RestoredAt(store.records, i);
      RestoreOne(q, Queued(client, store.records[keys[i]].command));
      if keys[i] > store.commandSeqno {
        store.commandSeqno := keys[i];
      }
      i := i + 1;
    }
    assert records[..i] == records && records[i..] == [];
    NoPublishes(client, []);
    GreatestSoFar(store.records, i);
  }

  /** The counter after i records. */
  function SoFar(keys: seq<int>, i: nat): int
    requires i <= |keys|
  {
    if i == 0 then 0 else if keys[i - 1] > SoFar(keys, i - 1) then keys[i - 1] else SoFar(keys, i - 1)
  }

  lemma {:induction false} GreatestSoFar(store: map<int, Record>, i: nat)
    requires i <= |SortedKeys(store.Keys)|
    ensures var keys := SortedKeys(store.Keys);
            SoFar(keys, i) == (if i == 0 || keys[i - 1] < 0 then 0 else keys[i - 1]) &&
            (i == |keys| ==> SoFar(keys, i) == Greatest(store))
  {
    if i > 0 {
      GreatestSoFar(store, i - 1);
    }
  }

  // ---- a restart of the whole process

  lemma NextClient(order: seq<Async>, states: map<Async, State>, j: nat)
    requires j < |order| && forall c :: c in order ==> c in states
    ensures Restored(order[..j + 1], states) == Restored(order[..j], states) + Back(order[j], states[order[j]])
  {
    assert order[..j + 1][..j] == order[..j];
  }

  lemma DistinctPrefix(order: seq<Async>, n: nat)
    requires Distinct(order) && n <= |order|
    ensures Distinct(order[..n])
  {
  }

  lemma FollowPrefix(order: seq<Async>, states: map<Async, State>, queue: seq<Queued>, j: nat)
    requires AllFollow(order, states, queue) && j < |order|
    ensures AllFollow(order[..j + 1], states, queue)
    ensures Inv(states[order[j]]) && Follows(order[j], queue, states[order[j]])
  {
    hide Inv, Follows;
  }

  /** What a crash leaves can be restored, client by client. */
  lemma RestorableAgain(order: seq<Async>, states: map<Async, State>, was: seq<Queued>, j: nat, n: int,
                        accepted: seq<Queued>, held: set<int>, now: set<int>)
    requires j < |order| && Distinct(order) && AllFollow(order, states, was) && QueueIds(was) && now <= held
    requires forall i :: 0 <= i < |was| ==> Numbered(was[i].command)
    requires Windowed(order[j], n, was, accepted) && AsyncQueue.Apart(order[j], was, held)
    ensures Restorable(Restored(order[..j], states), order[j], 0, now, Back(order[j], states[order[j]]))
  {
    var c := order[j];
    DistinctPrefix(order, j + 1);
    FollowPrefix(order, states, was, j);
    hide Restored, Back, QueueIds, Publishes, Numbered, Distinct, Inv, Follows, Urgent, AllFollow, AsyncQueue.Apart,
      Windowed;
    RestoredFromQueue(order[..j + 1], states, was);
    NextClient(order, states, j);
    FewerIds(Restored(order[..j + 1], states), was);
    BackFromQueue(c, states[c], was);
    BackApart(c, Back(c, states[c]), was, held, now);
    BackFits(c, Back(c, states[c]), was, n, accepted);
    BackNumbered(c, states[c], was);
  }

  lemma BackFits(c: Async, records: seq<Queued>, was: seq<Queued>, n: int, accepted: seq<Queued>)
    requires Windowed(c, n, was, accepted) && multiset(records) <= multiset(was)
    ensures c.options.CreateOptions? ==> |Publishes(c, records)| <= c.options.maxBufferedMessages
  {
    FewerPublishes(c, records, was);
    hide Publishes;
  }

  lemma BackNumbered(c: Async, s: State, was: seq<Queued>)
    requires Inv(s) && (forall q :: q in Back(c, s) ==> q in was)
    requires forall i :: 0 <= i < |was| ==> Numbered(was[i].command)
    ensures forall i :: 0 <= i < |Back(c, s)| ==>
              Back(c, s)[i].client == c && !Urgent(Back(c, s)[i].command) && Numbered(Back(c, s)[i].command)
  {
    NotUrgent(c, s);
    hide Inv, Back, Urgent, Numbered;
    forall i | 0 <= i < |Back(c, s)| ensures Numbered(Back(c, s)[i].command) {
      assert Back(c, s)[i] in Back(c, s) && Back(c, s)[i] in was;
    }
  }

  lemma BackApart(c: Async, records: seq<Queued>, was: seq<Queued>, held: set<int>, now: set<int>)
    requires AsyncQueue.Apart(c, was, held) && now <= held && forall q :: q in records ==> q in was
    ensures AsyncQueue.Apart(c, records, now)
  {
    hide Token;
    forall i | 0 <= i < |records| && records[i].client == c && Token(records[i].command) != 0
      ensures Token(records[i].command) !in now
    {
      assert records[i] in records && records[i] in was;
    }
  }

  /** Urgent commands have no records. */
  lemma NotUrgent(c: Async, s: State)
    requires Inv(s)
    ensures forall i :: 0 <= i < |Back(c, s)| ==> Back(c, s)[i].client == c && !Urgent(Back(c, s)[i].command)
  {
    if Restores(c) {
      RecordsAreGood(s);
      hide Inv, SortedKeys, FromRecords, Urgent;
      forall i | 0 <= i < |Back(c, s)| ensures !Urgent(Back(c, s)[i].command) {
        RestoredAt(s.store, i);
        var n := SortedKeys(s.store.Keys)[i];
        var k: nat :| GoodRecord(n, s.store[n], s.queue, k, s.accepted);
      }
    }
  }

  /** A client whose in-flight messages are back and that has nothing queued. */
  lemma EmptyAgain(c: Async, n: int, queue: seq<Queued>, accepted: seq<Queued>, outbound: seq<int>,
                   responses: seq<Command>, msgID: int)
    requires Windowed(c, n, queue, accepted) && HeldIds(outbound, responses, msgID)
    ensures Windowed(c, 0, [], []) && HeldIds(outbound, [], 0) && AsyncQueue.Apart(c, [], Held(outbound, []))
    ensures Held(outbound, []) <= Held(outbound, responses)
  {
  }

  /** All clients are there again, with their in-flight messages and nothing else. */
  method Forget(q: CommandQueue, order: seq<Async>)
    requires q.Valid() && forall c :: c in q.clients <==> c in order
    modifies q`queue, q`log, q`answers, q.clients`responses, q.clients`msgID, q.clients`noBufferedMessages
    ensures q.Valid() && q.queue == [] && q.answers == map[]
    ensures forall c :: c in q.clients ==> c.responses == [] && c.msgID == 0 && c.noBufferedMessages == 0
  {
    hide AsyncQueue.Kept, Windowed, HeldIds, QueueIds, Apart, Held, Numbered;
    forall c | c in q.clients
      ensures Windowed(c, 0, [], []) && HeldIds(c.outbound, [], 0) && AsyncQueue.Apart(c, [], Held(c.outbound, []))
    {
      EmptyAgain(c, c.noBufferedMessages, q.queue, q.log.accepted, c.outbound, c.responses, c.msgID);
    }
    EmptyKept();
    var i := 0;
    while i < |order|
      invariant 0 <= i <= |order| && q.clients == old(q.clients)
      invariant forall k :: 0 <= k < i ==>
        order[k].responses == [] && order[k].msgID == 0 && order[k].noBufferedMessages == 0
    {
      var c := order[i];
      c.responses, c.msgID, c.noBufferedMessages := [], 0, 0;
      i := i + 1;
    }
    q.queue, q.log, q.answers := [], Log([], [], [], []), map[];
    forall c | c in q.clients ensures c.responses == [] && c.msgID == 0 && c.noBufferedMessages == 0 {
      assert c in order;
    }
  }

  /** The stores of the clients, in the same order: all different, each with the records of its client's state. */
  ghost predicate StoresOf(order: seq<Async>, stores: seq<Persistence>, states: map<Async, State>)
    reads set i | 0 <= i < |stores| :: stores[i]`records
  {
    && |stores| == |order| && (forall i, j :: 0 <= i < j < |stores| ==> stores[i] != stores[j])
    && forall i :: 0 <= i < |order| ==> order[i] in states && stores[i].records == states[order[i]].store
  }

  /** MQTTAsync_createWithOptions: the client restores its commands, or deletes their records. */
  method RestoreNext(q: CommandQueue, c: Async, store: Persistence, ghost s: State)
    requires q.Valid() && c in q.clients && store.records == s.store && c.noBufferedMessages == 0
    requires Restorable(q.queue, c, 0, Held(c.outbound, c.responses), Back(c, s))
    modifies q`queue, q`log, c`noBufferedMessages, store
    ensures q.Valid() && q.clients == old(q.clients) && q.queue == old(q.queue) + Back(c, s)
    ensures var r := Restarted(s, Restores(c)); store.records == r.store && store.commandSeqno == r.seqno
  {
    hide Publishes, Held, Restorable, FromRecords, Greatest, MarkAll, Restores;
    store.commandSeqno := 0;
    if Restores(c) {
      RestoreCommands(q, c, store);
    } else {
      store.records := map[];
    }
  }

  /** Every client does so. */
  method RestoreAll(q: CommandQueue, order: seq<Async>, stores: seq<Persistence>, ghost states: map<Async, State>)
    requires q.Valid() && q.queue == [] && Distinct(order) && forall c :: c in q.clients <==> c in order
    requires StoresOf(order, stores, states) && forall c :: c in order ==> c.noBufferedMessages == 0
    requires forall j :: 0 <= j < |order| ==>
      Restorable(Restored(order[..j], states), order[j], 0, Held(order[j].outbound, order[j].responses),
                 Back(order[j], states[order[j]]))
    modifies q`queue, q`log, q.clients`noBufferedMessages, stores
    ensures q.Valid() && q.clients == old(q.clients) && q.queue == Restored(order, states)
    ensures forall i :: 0 <= i < |order| ==>
      var r := Restarted(states[order[i]], Restores(order[i]));
      stores[i].records == r.store && stores[i].commandSeqno == r.seqno
  {
    hide Publishes, Held, Restored, Restorable, Distinct, Restarted, Restores, Back, CommandQueue.Valid;
    var j := 0;
    assert order[..0] == [];
    NoneRestored(states);
    while j < |order|
      invariant 0 <= j <= |order| && q.Valid() && q.clients == old(q.clients)
      invariant q.queue == Restored(order[..j], states)
      invariant forall k :: j <= k < |order| ==> order[k].noBufferedMessages == 0
      invariant forall k :: j <= k < |order| ==> stores[k].records == states[order[k]].store
      invariant forall k :: 0 <= k < j ==>
        var r := Restarted(states[order[k]], Restores(order[k]));
        stores[k].records == r.store && stores[k].commandSeqno == r.seqno
    {
      var c := order[j];
      NextClient(order, states, j);
      Others(order, j);
      RestoreNext(q, c, stores[j], states[c]);
      j := j + 1;
    }
    assert order[..j] == order;
  }

  lemma NoneRestored(states: map<Async, State>)
    ensures Restored([], states) == []
  {
  }

  lemma Others(order: seq<Async>, j: nat)
    requires Distinct(order) && j < |order|
    ensures forall k :: 0 <= k < |order| && k != j ==> order[k] != order[j]
  {
  }

  /** The process stops and all clients are created again, in any order: their in-flight messages are back, the
      responses they awaited are not, and the queued commands come from the stores. The new objects are the old ones
      with their fields reset. */
  method Restart(q: CommandQueue, order: seq<Async>, stores: seq<Persistence>, ghost states: map<Async, State>)
    requires q.Valid() && Distinct(order) && forall c :: c in q.clients <==> c in order
    requires StoresOf(order, stores, states) && AllFollow(order, states, q.queue)
    modifies q`queue, q`log, q`answers, q.clients`responses, q.clients`msgID, q.clients`noBufferedMessages, stores
    ensures q.Valid() && q.clients == old(q.clients) && q.answers == map[]
    ensures forall c :: c in q.clients ==> c.responses == [] && c.msgID == 0
    ensures forall i :: 0 <= i < |order| ==>
      var r := Restarted(states[order[i]], Restores(order[i]));
      Inv(r) && Follows(order[i], q.queue, r) && stores[i].records == r.store && stores[i].commandSeqno == r.seqno
    ensures forall i :: 0 <= i < |order| ==>
      var c, o := order[i], order[i].options;
      if o.CreateOptions? && o.version >= 2 && !o.restoreMessages
      then Of(c, q.queue) == [] && stores[i].records == map[] && stores[i].commandSeqno == 0
      else Of(c, q.queue) == Wrapped(c, FromRecords(states[c].store)) && stores[i].records == states[c].store
  {
    hide AsyncQueue.Kept, Windowed, Publishes, HeldIds, QueueIds, AsyncQueue.Apart, Held, Numbered, Restored, Back,
      Restorable, Distinct, Inv, Follows, Restarted;
    var was := q.queue;
    forall j | 0 <= j < |order|
      ensures Restorable(Restored(order[..j], states), order[j], 0, Held(order[j].outbound, []),
                         Back(order[j], states[order[j]]))
    {
      var c := order[j];
      assert c in q.clients;
      EmptyAgain(c, c.noBufferedMessages, was, q.log.accepted, c.outbound, c.responses, c.msgID);
      RestorableAgain(order, states, was, j, c.noBufferedMessages, q.log.accepted,
                      Held(c.outbound, c.responses), Held(c.outbound, []));
    }
    Forget(q, order);
    RestoreAll(q, order, stores, states);
    forall i | 0 <= i < |order|
      ensures var r := Restarted(states[order[i]], Restores(order[i])); Inv(r) && Follows(order[i], q.queue, r)
    {
      AfterRestart(order, states, was, order[i]);
    }
    forall i | 0 <= i < |order|
      ensures var c, o := order[i], order[i].options;
              if o.CreateOptions? && o.version >= 2 && !o.restoreMessages
              then Of(c, q.queue) == [] && stores[i].records == map[] && stores[i].commandSeqno == 0
              else Of(c, q.queue) == Wrapped(c, FromRecords(states[c].store)) && stores[i].records == states[c].store
    {
      RestoredOrDeleted(order[i], q.queue, states[order[i]]);
    }
  }

  lemma RestoredOrDeleted(c: Async, queue: seq<Queued>, s: State)
    requires Follows(c, queue, Restarted(s, Restores(c)))
    ensures var o, r := c.options, Restarted(s, Restores(c));
            if o.CreateOptions? && o.version >= 2 && !o.restoreMessages
            then Of(c, queue) == [] && r.store == map[] && r.seqno == 0
            else Of(c, queue) == Wrapped(c, FromRecords(s.store)) && r.store == s.store
  {
    hide Of, FromRecords, Greatest, MarkAll;
  }

  lemma AfterRestart(order: seq<Async>, states: map<Async, State>, was: seq<Queued>, c: Async)
    requires Distinct(order) && AllFollow(order, states, was) && c in order
    ensures var r := Restarted(states[c], Restores(c)); Inv(r) && Follows(c, Restored(order, states), r)
  {
    RestoredFollows(order, states, was, c);
    assert Inv(states[c]);
    hide Inv, Restarted;
    if Restores(c) { RestoredKeepsInv(states[c]); } else { DeletedKeepsInv(states[c]); }
  }
}
