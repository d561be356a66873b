/** The command queue that all clients of MQTTAsync share: MQTTAsync_send, MQTTAsync_addCommand and the selection
    loop of MQTTAsync_processCommand. */
module AsyncQueue {
  import opened LinkedList
  import opened MsgId
  import opened Sequences

  const MQTTASYNC_SUCCESS := 0
  const MQTTASYNC_DISCONNECTED := -3
  const MQTTASYNC_BAD_UTF8_STRING := -5
  const MQTTASYNC_BAD_QOS := -9
  const MQTTASYNC_NO_MORE_MSGIDS := -10
  const MQTTASYNC_MAX_BUFFERED_MESSAGES := -12
  const MQTTASYNC_BAD_MQTT_OPTION := -15
  const MQTTASYNC_COMMAND_IGNORED := -18

  datatype Command =
    | Connect
    | Disconnect(internal: bool)
    | Subscribe(token: int)
    | Unsubscribe(token: int)
    | Publish(token: int, qos: int, retained: bool, topic: string, payload: string)

  datatype Options = NoOptions | CreateOptions(
    version: int, sendWhileDisconnected: bool, allowDisconnectedSendAtAnyTime: bool,
    maxBufferedMessages: int, deleteOldestMessages: bool, restoreMessages: bool, persistQoS0: bool)

  /** The message id of a command, 0 for none. */
  function Token(c: Command): int {
    match c
    case Connect => 0
    case Disconnect(_) => 0
    case Subscribe(token) => token
    case Unsubscribe(token) => token
    case Publish(token, _, _, _, _) => token
  }

  /** One client. `outbound` are the ids of its outboundMsgs, `responses` its commands that wait for an acknowledgement.
      MQTTAsync_createWithOptions refuses options with a maxBufferedMessages of 0 or less. */
  class Async {
    const options: Options
    var connected: bool
    var connecting: bool
    var shouldBeConnected: bool
    var pendingWrites: bool
    var msgID: int
    var outbound: seq<int>
    var responses: seq<Command>
    var maxInflight: int
    var noBufferedMessages: int

    constructor (options: Options, maxInflight: int)
      requires options.CreateOptions? ==> options.maxBufferedMessages > 0
      ensures this.options == options && this.maxInflight == maxInflight && noBufferedMessages == 0
      ensures msgID == 0 && outbound == [] && responses == []
    {
      this.options, this.maxInflight := options, maxInflight;
      connected, connecting, shouldBeConnected, pendingWrites := false, false, false, false;
      msgID, outbound, responses, noBufferedMessages := 0, [], [], 0;
    }
  }

  datatype Queued = Queued(client: Async, command: Command)

  datatype Choice = NoneReady | Chosen(q: Queued)

  /** Commands that go to the head of the queue; all others are appended. */
  predicate Urgent(c: Command) {
    c.Connect? || (c.Disconnect? && c.internal)
  }

  predicate PublishOf(c: Async, q: Queued) {
    q.client == c && q.command.Publish?
  }

  function Own(c: Async, q: Queued): seq<Queued> {
    if PublishOf(c, q) then [q] else []
  }

  /** The publishes of one client. */
  function Publishes(c: Async, s: seq<Queued>): seq<Queued> {
    if s == [] then [] else Own(c, s[0]) + Publishes(c, s[1..])
  }

  lemma {:induction false} PublishesConcat(c: Async, a: seq<Queued>, b: seq<Queued>)
    ensures Publishes(c, a + b) == Publishes(c, a) + Publishes(c, b)
  {
    hide Own;
    if a == [] {
      assert a + b == b;
    } else {
      assert (a + b)[1..] == a[1..] + b && (a + b)[0] == a[0];
      PublishesConcat(c, a[1..], b);
      assert Own(c, a[0]) + (Publishes(c, a[1..]) + Publishes(c, b)) ==
        (Own(c, a[0]) + Publishes(c, a[1..])) + Publishes(c, b);
    }
  }

  lemma {:induction false} NoPublishes(c: Async, s: seq<Queued>)
    requires forall i :: 0 <= i < |s| ==> !PublishOf(c, s[i])
    ensures Publishes(c, s) == []
  {
    if s != [] {
      NoPublishes(c, s[1..]);
    }
  }

  lemma PublishesAppend(c: Async, s: seq<Queued>, q: Queued)
    ensures Publishes(c, s + [q]) == Publishes(c, s) + Own(c, q)
  {
    PublishesConcat(c, s, [q]);
    assert Publishes(c, [q][1..]) == [];
  }

  /** Taking out a client's first publish takes out the first of its publishes; no other removal affects them. */
  lemma PublishesWithout(c: Async, s: seq<Queued>, k: nat)
    requires k < |s|
    requires PublishOf(c, s[k]) ==> forall i :: 0 <= i < k ==> !PublishOf(c, s[i])
    ensures if PublishOf(c, s[k]) then Publishes(c, s) == [s[k]] + Publishes(c, Without(s, k))
            else Publishes(c, Without(s, k)) == Publishes(c, s)
  {
    assert s == s[..k] + s[k..];
    PublishesConcat(c, s[..k], s[k..]);
    PublishesConcat(c, s[..k], s[k + 1..]);
    assert s[k..][1..] == s[k + 1..];
    if PublishOf(c, s[k]) { NoPublishes(c, s[..k]); }
  }

  // ---- what has happened to the appended commands

  /** `accepted` lists the appended commands in order; a ticket is an index into it. `tickets` gives the ticket of each
      queued command, -1 for an urgent one; `dispatched` and `evicted` the tickets of the others as they left. */
  datatype Log = Log(accepted: seq<Queued>, tickets: seq<int>, dispatched: seq<int>, evicted: seq<int>)

  ghost predicate Ticketed(queue: seq<Queued>, tickets: seq<int>, accepted: seq<Queued>) {
    && |tickets| == |queue|
    && forall i :: 0 <= i < |queue| ==>
         if Urgent(queue[i].command) then tickets[i] == -1
         else 0 <= tickets[i] < |accepted| && accepted[tickets[i]] == queue[i]
  }

  ghost predicate Ascending(tickets: seq<int>) {
    forall i, j :: 0 <= i < j < |tickets| && tickets[i] >= 0 && tickets[j] >= 0 ==> tickets[i] < tickets[j]
  }

  ghost predicate Past(accepted: seq<Queued>, gone: seq<int>) {
    forall i :: 0 <= i < |gone| ==> 0 <= gone[i] < |accepted|
  }

  /** No command has overtaken another of its client: they went out in the order they were accepted in... */
  ghost predicate SentInOrder(accepted: seq<Queued>, dispatched: seq<int>)
    requires Past(accepted, dispatched)
  {
    forall i, j :: 0 <= i < j < |dispatched| && accepted[dispatched[i]].client == accepted[dispatched[j]].client ==>
      dispatched[i] < dispatched[j]
  }

  /** ... and before those still queued. */
  ghost predicate Ahead(queue: seq<Queued>, tickets: seq<int>, accepted: seq<Queued>, dispatched: seq<int>)
    requires |tickets| == |queue| && Past(accepted, dispatched)
  {
    forall i, j ::
      (0 <= i < |dispatched| && 0 <= j < |queue| &&
       accepted[dispatched[i]].client == queue[j].client && tickets[j] >= 0)
      ==> dispatched[i] < tickets[j]
  }

  /** Only publishes are evicted, and none after a publish of its client that is still queued. */
  ghost predicate OldestEvicted(queue: seq<Queued>, tickets: seq<int>, accepted: seq<Queued>, evicted: seq<int>)
    requires |tickets| == |queue| && Past(accepted, evicted)
  {
    && (forall i :: 0 <= i < |evicted| ==> accepted[evicted[i]].command.Publish?)
    && (forall i, j :: 0 <= i < |evicted| && 0 <= j < |queue| && PublishOf(accepted[evicted[i]].client, queue[j]) ==>
          evicted[i] < tickets[j])
  }

  /** Every accepted command is queued, dispatched or evicted: one of them, and once. */
  ghost predicate Accounted(total: nat, tickets: seq<int>, dispatched: seq<int>, evicted: seq<int>) {
    forall t :: 0 <= t < total ==> multiset(tickets)[t] + multiset(dispatched)[t] + multiset(evicted)[t] == 1
  }

  ghost predicate Kept(queue: seq<Queued>, log: Log) {
    && Ticketed(queue, log.tickets, log.accepted) && Ascending(log.tickets)
    && Past(log.accepted, log.dispatched) && Past(log.accepted, log.evicted)
    && SentInOrder(log.accepted, log.dispatched) && Ahead(queue, log.tickets, log.accepted, log.dispatched)
    && OldestEvicted(queue, log.tickets, log.accepted, log.evicted)
    && Accounted(|log.accepted|, log.tickets, log.dispatched, log.evicted)
  }

  lemma NotYet(s: seq<int>, t: int)
    requires forall i :: 0 <= i < |s| ==> s[i] < t
    ensures multiset(s)[t] == 0
  {
    assert t !in s;
  }

  lemma BelowTotal(queue: seq<Queued>, log: Log)
    requires Ticketed(queue, log.tickets, log.accepted) && Past(log.accepted, log.dispatched) &&
      Past(log.accepted, log.evicted)
    ensures forall i :: 0 <= i < |log.tickets| ==> log.tickets[i] < |log.accepted|
    ensures forall i :: 0 <= i < |log.dispatched| ==> log.dispatched[i] < |log.accepted|
    ensures forall i :: 0 <= i < |log.evicted| ==> log.evicted[i] < |log.accepted|
  {
  }

  lemma AccountedAppend(total: nat, tickets: seq<int>, dispatched: seq<int>, evicted: seq<int>)
    requires Accounted(total, tickets, dispatched, evicted)
    requires forall i :: 0 <= i < |tickets| ==> tickets[i] < total
    requires forall i :: 0 <= i < |dispatched| ==> dispatched[i] < total
    requires forall i :: 0 <= i < |evicted| ==> evicted[i] < total
    ensures Accounted(total + 1, tickets + [total], dispatched, evicted)
  {
    NotYet(tickets, total);
    NotYet(dispatched, total);
    NotYet(evicted, total);
  }

  /** A new ticket at the end. */
  lemma TicketsAppend(queue: seq<Queued>, tickets: seq<int>, accepted: seq<Queued>, q: Queued)
    requires Ticketed(queue, tickets, accepted) && Ascending(tickets) && !Urgent(q.command)
    ensures Ticketed(queue + [q], tickets + [|accepted|], accepted + [q]) && Ascending(tickets + [|accepted|])
  {
    hide Urgent;
  }

  lemma GoneAppend(queue: seq<Queued>, tickets: seq<int>, accepted: seq<Queued>, gone: seq<int>, q: Queued)
    requires |tickets| == |queue| && Past(accepted, gone)
    ensures Past(accepted + [q], gone)
    ensures SentInOrder(accepted, gone) ==> SentInOrder(accepted + [q], gone)
    ensures Ahead(queue, tickets, accepted, gone) ==> Ahead(queue + [q], tickets + [|accepted|], accepted + [q], gone)
    ensures OldestEvicted(queue, tickets, accepted, gone) ==>
              OldestEvicted(queue + [q], tickets + [|accepted|], accepted + [q], gone)
  {
  }

  lemma KeptAppend(queue: seq<Queued>, log: Log, q: Queued)
    requires Kept(queue, log) && !Urgent(q.command)
    ensures Kept(queue + [q], log.(accepted := log.accepted + [q], tickets := log.tickets + [|log.accepted|]))
  {
    BelowTotal(queue, log);
    AccountedAppend(|log.accepted|, log.tickets, log.dispatched, log.evicted);
    hide Accounted, Ascending, Past, SentInOrder, Ahead, OldestEvicted, Urgent, Ticketed;
    TicketsAppend(queue, log.tickets, log.accepted, q);
    GoneAppend(queue, log.tickets, log.accepted, log.dispatched, q);
    GoneAppend(queue, log.tickets, log.accepted, log.evicted, q);
  }

  lemma KeptInsert(queue: seq<Queued>, log: Log, q: Queued)
    requires Kept(queue, log) && Urgent(q.command)
    ensures Kept([q] + queue, log.(tickets := [-1] + log.tickets))
  {
    hide Accounted;
    AccountedSame(log, [-1] + log.tickets);
  }

  lemma AccountedSame(log: Log, tickets: seq<int>)
    requires Accounted(|log.accepted|, log.tickets, log.dispatched, log.evicted)
    requires forall t :: 0 <= t ==> multiset(tickets)[t] == multiset(log.tickets)[t]
    ensures Accounted(|log.accepted|, tickets, log.dispatched, log.evicted)
  {
  }

  /** What a removal leaves in place. */
  lemma KeptWithout(queue: seq<Queued>, log: Log, k: nat)
    requires Kept(queue, log) && k < |queue|
    ensures var q, ts := Without(queue, k), Without(log.tickets, k);
            && Ticketed(q, ts, log.accepted) && Ascending(ts)
            && Ahead(q, ts, log.accepted, log.dispatched)
            && OldestEvicted(q, ts, log.accepted, log.evicted)
  {
    hide Urgent, Accounted, SentInOrder;
    assert forall i :: 0 <= i < |queue| - 1 ==> Without(queue, k)[i] == queue[if i < k then i else i + 1];
    assert forall i :: 0 <= i < |queue| - 1 ==> Without(log.tickets, k)[i] == log.tickets[if i < k then i else i + 1];
  }

  ghost function Dispatched(log: Log, k: nat): Log
    requires k < |log.tickets|
  {
    log.(tickets := Without(log.tickets, k),
         dispatched := if log.tickets[k] < 0 then log.dispatched else log.dispatched + [log.tickets[k]])
  }

  ghost function Evicted(log: Log, k: nat): Log
    requires k < |log.tickets|
  {
    log.(tickets := Without(log.tickets, k), evicted := log.evicted + [log.tickets[k]])
  }

  lemma AccountedMove(log: Log, k: nat)
    requires k < |log.tickets| && Accounted(|log.accepted|, log.tickets, log.dispatched, log.evicted)
    ensures var now := Dispatched(log, k); Accounted(|log.accepted|, now.tickets, now.dispatched, now.evicted)
    ensures var now := Evicted(log, k); Accounted(|log.accepted|, now.tickets, now.dispatched, now.evicted)
  {
    WithoutMultiset(log.tickets, k);
  }

  /** A client's first command leaves. */
  lemma KeptDispatch(queue: seq<Queued>, log: Log, k: nat)
    requires Kept(queue, log) && k < |queue| && First(queue, k)
    ensures Kept(Without(queue, k), Dispatched(log, k))
  {
    KeptWithout(queue, log, k);
    AccountedMove(log, k);
    var now := Dispatched(log, k);
    assert Ahead(Without(queue, k), now.tickets, log.accepted, now.dispatched) by {
      hide Accounted, OldestEvicted, SentInOrder;
      if log.tickets[k] >= 0 { AheadOfRest(queue, log, k); }
    }
    hide Accounted, OldestEvicted, Urgent;
  }

  lemma AheadOfRest(queue: seq<Queued>, log: Log, k: nat)
    requires |log.tickets| == |queue| && Ascending(log.tickets) && k < |queue| && First(queue, k) && log.tickets[k] >= 0
    ensures forall j ::
              (0 <= j < |queue| - 1 &&
               Without(queue, k)[j].client == queue[k].client && Without(log.tickets, k)[j] >= 0)
              ==> log.tickets[k] < Without(log.tickets, k)[j]
  {
  }

  /** The first publish of a client is dropped. */
  lemma KeptEvict(queue: seq<Queued>, log: Log, k: nat)
    requires Kept(queue, log) && k < |queue| && FirstPublish(queue, k)
    ensures Kept(Without(queue, k), Evicted(log, k))
  {
    KeptWithout(queue, log, k);
    AccountedMove(log, k);
    hide Accounted, SentInOrder, Ahead;
  }

  predicate First(queue: seq<Queued>, k: nat)
    requires k < |queue|
  {
    forall i :: 0 <= i < k ==> queue[i].client != queue[k].client
  }

  predicate FirstPublish(queue: seq<Queued>, k: nat)
    requires k < |queue|
  {
    queue[k].command.Publish? && forall i :: 0 <= i < k ==> !PublishOf(queue[k].client, queue[i])
  }

  // ---- a whole run

  function All(n: nat): (s: seq<int>)
    ensures |s| == n && forall i :: 0 <= i < n ==> s[i] == i
  {
    if n == 0 then [] else All(n - 1) + [n - 1]
  }

  ghost function TicketsOf(c: Async, accepted: seq<Queued>, s: seq<int>): seq<int>
    requires Past(accepted, s)
  {
    if s == [] then [] else (if accepted[s[0]].client == c then [s[0]] else []) + TicketsOf(c, accepted, s[1..])
  }

  ghost predicate Rising(s: seq<int>) {
    forall i, j :: 0 <= i < j < |s| ==> s[i] < s[j]
  }

  lemma {:induction false} TicketsOfSpec(c: Async, accepted: seq<Queued>, s: seq<int>)
    requires Past(accepted, s)
    requires forall i, j :: 0 <= i < j < |s| && accepted[s[i]].client == accepted[s[j]].client ==> s[i] < s[j]
    ensures Rising(TicketsOf(c, accepted, s))
    ensures forall x :: x in TicketsOf(c, accepted, s) <==> x in s && accepted[x].client == c
  {
    if s != [] {
      TicketsOfSpec(c, accepted, s[1..]);
      assert s == [s[0]] + s[1..];
      var rest := TicketsOf(c, accepted, s[1..]);
      assert forall i :: 0 <= i < |rest| ==> rest[i] in rest;
    }
  }

  lemma InTail(s: seq<int>, x: int)
    requires Rising(s) && s != []
    ensures x in s[1..] <==> x in s && x != s[0]
  {
    assert s == [s[0]] + s[1..];
    if x in s[1..] {
      var i :| 0 <= i < |s| - 1 && s[1..][i] == x;
      assert s[0] < s[i + 1];
    }
  }

  lemma HasMember(s: seq<int>)
    ensures s != [] ==> s[0] in s
  {
  }

  lemma {:induction false} RisingSame(a: seq<int>, b: seq<int>)
    requires Rising(a) && Rising(b) && forall x :: x in a <==> x in b
    ensures a == b
  {
    if a == [] {
      HasMember(b);
    } else {
      assert a[0] in b && b[0] in a;
      assert a[0] == b[0];
      forall x ensures x in a[1..] <==> x in b[1..] {
        InTail(a, x);
        InTail(b, x);
      }
      RisingSame(a[1..], b[1..]);
    }
  }

  /** Once a client has no commands queued, and if none of its publishes was evicted, its commands have gone out
      exactly as they were accepted: all of them, each once, in order. */
  lemma SentAsAccepted(queue: seq<Queued>, log: Log, c: Async)
    requires Kept(queue, log)
    requires forall i :: 0 <= i < |queue| ==> queue[i].client != c
    requires forall i :: 0 <= i < |log.evicted| ==> log.accepted[log.evicted[i]].client != c
    ensures TicketsOf(c, log.accepted, log.dispatched) == TicketsOf(c, log.accepted, All(|log.accepted|))
  {
    var all := All(|log.accepted|);
    TicketsOfSpec(c, log.accepted, log.dispatched);
    TicketsOfSpec(c, log.accepted, all);
    var a, b := TicketsOf(c, log.accepted, log.dispatched), TicketsOf(c, log.accepted, all);
    forall x ensures x in a <==> x in b {
      if 0 <= x < |all| { assert all[x] == x; }
      if x in b {
        assert multiset(log.tickets)[x] + multiset(log.dispatched)[x] + multiset(log.evicted)[x] == 1;
        assert x !in log.tickets && x !in log.evicted;
        assert x in multiset(log.dispatched);
      }
    }
    RisingSame(a, b);
  }

  // ---- the window of buffered publishes

  /** `n` is the number of publishes a client has queued; they are the newest `n` it has had accepted, in order, and no
      more than its create options allow. */
  ghost predicate Windowed(c: Async, n: int, queue: seq<Queued>, accepted: seq<Queued>) {
    && n == |Publishes(c, queue)| <= |Publishes(c, accepted)|
    && Publishes(c, accepted)[|Publishes(c, accepted)| - n..] == Publishes(c, queue)
    && (c.options.CreateOptions? ==> c.options.maxBufferedMessages > 0 && n <= c.options.maxBufferedMessages)
  }

  lemma WindowedAppend(c: Async, n: int, queue: seq<Queued>, accepted: seq<Queued>, q: Queued)
    requires Windowed(c, n, queue, accepted)
    requires PublishOf(c, q) && c.options.CreateOptions? ==> n < c.options.maxBufferedMessages
    ensures Windowed(c, n + |Own(c, q)|, queue + [q], accepted + [q])
  {
    PublishesAppend(c, queue, q);
    PublishesAppend(c, accepted, q);
    var all, own := Publishes(c, accepted), Own(c, q);
    assert (all + own)[|all| - n..] == all[|all| - n..] + own;
  }

  lemma WindowedInsert(c: Async, n: int, queue: seq<Queued>, accepted: seq<Queued>, q: Queued)
    requires Windowed(c, n, queue, accepted) && !q.command.Publish?
    ensures Windowed(c, n, [q] + queue, accepted)
  {
    assert ([q] + queue)[1..] == queue;
  }

  lemma WindowedWithout(c: Async, n: int, queue: seq<Queued>, accepted: seq<Queued>, k: nat)
    requires Windowed(c, n, queue, accepted) && k < |queue|
    requires queue[k].command.Publish? ==> FirstPublish(queue, k)
    ensures Windowed(c, n - |Own(c, queue[k])|, Without(queue, k), accepted)
  {
    hide Publishes;
    PublishesWithout(c, queue, k);
    var all := Publishes(c, accepted);
    if PublishOf(c, queue[k]) {
      assert all[|all| - n + 1..] == all[|all| - n..][1..];
    }
  }

  /** The oldest goes when the window is full: the new publish takes its place. */
  lemma WindowedSlide(c: Async, n: int, queue: seq<Queued>, accepted: seq<Queued>, q: Queued, k: nat)
    requires Windowed(c, n, queue, accepted) && PublishOf(c, q) && k < |queue + [q]|
    requires c.options.CreateOptions? && n >= c.options.maxBufferedMessages
    requires PublishOf(c, (queue + [q])[k]) && FirstPublish(queue + [q], k)
    ensures Windowed(c, n, Without(queue + [q], k), accepted + [q])
  {
    hide Publishes;
    PublishesAppend(c, queue, q);
    PublishesAppend(c, accepted, q);
    PublishesWithout(c, queue + [q], k);
    var all := Publishes(c, accepted);
    var window := Publishes(c, queue);
    assert (all + [q])[|all| + 1 - n..] == window[1..] + [q];
    assert Publishes(c, Without(queue + [q], k)) == (window + [q])[1..] == window[1..] + [q];
  }

  // ---- message ids

  /** The ids a client holds outside the queue. */
  function Held(outbound: seq<int>, responses: seq<Command>): set<int> {
    (set x | x in outbound) + (set r | r in responses :: Token(r))
  }

  function Tokens(queue: seq<Queued>): set<int> {
    set i | 0 <= i < |queue| :: Token(queue[i].command)
  }

  /** All clients' queued ids differ: an id is looked for in the whole queue. */
  ghost predicate QueueIds(queue: seq<Queued>) {
    forall i, j :: 0 <= i < j < |queue| && Token(queue[i].command) != 0 ==>
      Token(queue[i].command) != Token(queue[j].command)
  }

  /** So do the ids of a client's in-flight messages, and those it awaits responses for; a response for something other
      than a publish is not for one of the messages. */
  ghost predicate HeldIds(outbound: seq<int>, responses: seq<Command>, msgID: int) {
    && 0 <= msgID <= MAX_MSG_ID
    && (forall i, j :: 0 <= i < j < |outbound| ==> outbound[i] != outbound[j])
    && (forall i, j :: 0 <= i < j < |responses| && Token(responses[i]) != 0 ==>
          Token(responses[i]) != Token(responses[j]))
    && (forall i :: 0 <= i < |responses| && Token(responses[i]) != 0 && !responses[i].Publish? ==>
          Token(responses[i]) !in outbound)
  }

  /** A publish with a QoS above 0 has an id. */
  predicate Numbered(c: Command) {
    c.Publish? && c.qos > 0 ==> c.token != 0
  }

  /** And none of a client's queued commands has an id that the client holds. */
  ghost predicate Apart(c: Async, queue: seq<Queued>, held: set<int>) {
    forall i :: 0 <= i < |queue| && queue[i].client == c && Token(queue[i].command) != 0 ==>
      Token(queue[i].command) !in held
  }

  ghost predicate Fresh(queue: seq<Queued>, held: set<int>, token: int) {
    token != 0 ==> token !in Tokens(queue) && token !in held
  }

  lemma IdsAppend(queue: seq<Queued>, held: set<int>, q: Queued, c: Async, heldC: set<int>)
    requires QueueIds(queue) && Fresh(queue, held, Token(q.command))
    requires Apart(c, queue, heldC) && (c == q.client ==> heldC == held)
    ensures QueueIds(queue + [q]) && Apart(c, queue + [q], heldC)
  {
    forall i | 0 <= i < |queue| ensures Token(queue[i].command) in Tokens(queue) {
    }
  }

  lemma IdsInsert(queue: seq<Queued>, q: Queued, c: Async, held: set<int>)
    requires QueueIds(queue) && Token(q.command) == 0 && Apart(c, queue, held)
    ensures QueueIds([q] + queue) && Apart(c, [q] + queue, held)
  {
  }

  lemma IdsWithout(queue: seq<Queued>, k: nat, c: Async, held: set<int>)
    requires QueueIds(queue) && k < |queue| && Apart(c, queue, held)
    ensures QueueIds(Without(queue, k)) && Apart(c, Without(queue, k), held)
  {
    assert forall i :: 0 <= i < |queue| - 1 ==> Without(queue, k)[i] == queue[if i < k then i else i + 1];
  }

  /** A dispatched id is not used by what stays in the queue. */
  lemma IdsMove(queue: seq<Queued>, k: nat, c: Async, held: set<int>, now: set<int>)
    requires QueueIds(queue) && k < |queue| && Apart(c, queue, held)
    requires now <= held + {Token(queue[k].command)}
    ensures Apart(c, Without(queue, k), now)
  {
    assert forall i :: 0 <= i < |queue| - 1 ==> Without(queue, k)[i] == queue[if i < k then i else i + 1];
  }

  /** What a client holds after a command is dispatched. */
  lemma HeldMove(outbound: seq<int>, responses: seq<Command>, msgID: int, cmd: Command, o: seq<int>, r: seq<Command>)
    requires HeldIds(outbound, responses, msgID) && (Token(cmd) != 0 ==> Token(cmd) !in Held(outbound, responses))
    requires o == outbound || (o == outbound + [Token(cmd)] && cmd.Publish? && Token(cmd) != 0)
    requires r == responses || r == responses + [cmd]
    ensures HeldIds(o, r, msgID) && Held(o, r) <= Held(outbound, responses) + {Token(cmd)}
  {
    assert forall i :: 0 <= i < |outbound| ==> outbound[i] in Held(outbound, responses);
    assert forall i :: 0 <= i < |responses| ==> Token(responses[i]) in Held(outbound, responses);
  }

  /** Whether processCommand may take this command now. */
  predicate Ready(q: Queued)
    reads q.client
  {
    match q.command
    case Connect => true
    case Disconnect(_) => true
    case Publish(_, qos, _, _, _) =>
      Idle(q.client) && |q.client.outbound| < MAX_MSG_ID - 1 && (qos > 0 ==> |q.client.outbound| < q.client.maxInflight)
    case Subscribe(_) =>
      Idle(q.client) && |q.client.outbound| < MAX_MSG_ID - 1 && |q.client.outbound| < q.client.maxInflight
    case Unsubscribe(_) =>
      Idle(q.client) && |q.client.outbound| < MAX_MSG_ID - 1 && |q.client.outbound| < q.client.maxInflight
  }

  predicate Idle(c: Async)
    reads c
  {
    c.connected && !c.connecting && !c.pendingWrites
  }

  lemma EmptyKept()
    ensures Kept([], Log([], [], [], [])) && QueueIds([])
  {
  }

  lemma NothingYet(c: Async)
    requires c.options.CreateOptions? ==> c.options.maxBufferedMessages > 0
    ensures Windowed(c, 0, [], []) && HeldIds([], [], 0) && QueueIds([]) && Apart(c, [], Held([], []))
  {
  }

  /** How the write of a dispatched command ends. */
  datatype Outcome = Complete | Interrupted | Failed

  /** What has become of a dispatched request or publish with a QoS above 0. */
  datatype Answer = Awaiting | Acknowledged | NotWritten | Cleaned

  ghost predicate Tracked(cmd: Command) {
    cmd.Subscribe? || cmd.Unsubscribe? || (cmd.Publish? && cmd.qos != 0)
  }

  /** Each of them is accounted for. */
  ghost predicate Answered(accepted: seq<Queued>, dispatched: seq<int>, answers: map<int, Answer>) {
    && (forall i :: 0 <= i < |dispatched| && 0 <= dispatched[i] < |accepted| ==>
          Tracked(accepted[dispatched[i]].command) ==> dispatched[i] in answers)
    && forall t :: t in answers ==> 0 <= t < |accepted|
  }

  /** What a client awaits is among its responses. */
  ghost predicate Awaited(c: Async, responses: seq<Command>, accepted: seq<Queued>, answers: map<int, Answer>) {
    forall t :: t in answers && answers[t].Awaiting? && 0 <= t < |accepted| && accepted[t].client == c ==>
      accepted[t].command in responses
  }

  lemma AnsweredAppend(accepted: seq<Queued>, dispatched: seq<int>, answers: map<int, Answer>, q: Queued)
    requires Answered(accepted, dispatched, answers) && Past(accepted, dispatched)
    ensures Answered(accepted + [q], dispatched, answers)
    ensures forall c, responses :: Awaited(c, responses, accepted, answers) ==>
              Awaited(c, responses, accepted + [q], answers)
  {
    assert forall t :: 0 <= t < |accepted| ==> (accepted + [q])[t] == accepted[t];
  }

  lemma AnsweredDispatch(accepted: seq<Queued>, dispatched: seq<int>, answers: map<int, Answer>, t: int,
                         now: map<int, Answer>)
    requires Answered(accepted, dispatched, answers) && 0 <= t < |accepted|
    requires forall x :: x in now <==> x in answers || (x == t && Tracked(accepted[t].command))
    ensures Answered(accepted, dispatched + [t], now)
  {
  }

  /** A client's responses after a dispatch, its own or another's. */
  lemma AwaitedDispatch(c: Async, responses: seq<Command>, accepted: seq<Queued>, answers: map<int, Answer>, t: int,
                        a: Answer, now: seq<Command>)
    requires Awaited(c, responses, accepted, answers) && 0 <= t < |accepted|
    requires forall r :: r in responses ==> r in now
    requires a.Awaiting? && accepted[t].client == c ==> accepted[t].command in now
    ensures Awaited(c, now, accepted, answers[t := a])
  {
  }

  lemma AwaitedMore(c: Async, responses: seq<Command>, accepted: seq<Queued>, answers: map<int, Answer>,
                    now: seq<Command>)
    requires Awaited(c, responses, accepted, answers) && forall r :: r in responses ==> r in now
    ensures Awaited(c, now, accepted, answers)
  {
  }

  lemma NothingHeld(c: Async, queue: seq<Queued>)
    ensures HeldIds([], [], 0) && Apart(c, queue, Held([], []))
  {
  }

  /** What a client awaits of a kind is settled. */
  ghost function Settle(answers: map<int, Answer>, accepted: seq<Queued>, c: Async, kind: Command -> bool, a: Answer)
    : (r: map<int, Answer>)
    ensures r.Keys == answers.Keys
    ensures forall t :: t in answers && 0 <= t < |accepted| ==>
              r[t] == if answers[t].Awaiting? && accepted[t].client == c && kind(accepted[t].command) then a
                      else answers[t]
  {
    map t | t in answers ::
      if answers[t].Awaiting? && 0 <= t < |accepted| && accepted[t].client == c && kind(accepted[t].command) then a
      else answers[t]
  }

  lemma SettleKeeps(answers: map<int, Answer>, accepted: seq<Queued>, dispatched: seq<int>, c: Async,
                    kind: Command -> bool, a: Answer)
    requires Answered(accepted, dispatched, answers) && !a.Awaiting?
    ensures Answered(accepted, dispatched, Settle(answers, accepted, c, kind, a))
    ensures forall d, responses :: Awaited(d, responses, accepted, answers) ==>
              Awaited(d, responses, accepted, Settle(answers, accepted, c, kind, a))
  {
    hide Settle;
    var now := Settle(answers, accepted, c, kind, a);
    assert forall t :: t in now <==> t in answers;
  }

  /** What is still awaited after an acknowledgement is still among the responses. */
  lemma AwaitedOthers(c: Async, responses: seq<Command>, accepted: seq<Queued>, answers: map<int, Answer>, id: int)
    requires Awaited(c, responses, accepted, answers)
    ensures Awaited(c, RemoveFirst(responses, r => Token(r) == id), accepted,
                    Settle(answers, accepted, c, r => Token(r) == id, Acknowledged))
  {
    RemovesOne(responses, r => Token(r) == id);
    hide RemoveFirst, Settle;
  }

  lemma AwaitedNone(c: Async, accepted: seq<Queued>, answers: map<int, Answer>)
    ensures Awaited(c, [], accepted, Settle(answers, accepted, c, _ => true, Cleaned))
  {
    hide Settle;
  }

  lemma RemovesOne<T>(s: seq<T>, p: T -> bool)
    ensures forall x :: x in s && !p(x) ==> x in RemoveFirst(s, p)
  {
    var k := FirstMatch(s, p);
    if k < |s| {
      assert s == s[..k] + [s[k]] + s[k + 1..];
    }
  }

  lemma HeldResponse(outbound: seq<int>, responses: seq<Command>, cmd: Command)
    ensures cmd in responses ==> Token(cmd) in Held(outbound, responses)
  {
  }

  lemma DispatchedKeeps(log: Log, k: nat)
    requires k < |log.tickets|
    ensures Dispatched(log, k).accepted == log.accepted
  {
  }

  lemma IdsStay(outbound: seq<int>, responses: seq<Command>, msgID: int, now: int)
    requires HeldIds(outbound, responses, msgID) && IsId(now)
    ensures HeldIds(outbound, responses, now)
  {
  }

  /** An id that is not in use is that of no queued command and of nothing the client awaits. */
  lemma NobodysId(queue: seq<Queued>, c: Async, outbound: seq<int>, responses: seq<Command>, accepted: seq<Queued>,
                  answers: map<int, Answer>, id: int)
    requires id !in Tokens(queue) + Held(outbound, responses) && Awaited(c, responses, accepted, answers)
    ensures forall i :: 0 <= i < |queue| ==> Token(queue[i].command) != id
    ensures forall t :: t in answers && answers[t].Awaiting? && 0 <= t < |accepted| ==>
              accepted[t].client == c ==> Token(accepted[t].command) != id
  {
    forall i | 0 <= i < |queue| ensures Token(queue[i].command) in Tokens(queue) {
    }
  }

  lemma InOne(log: Log, t: int)
    requires multiset(log.tickets)[t] + multiset(log.dispatched)[t] + multiset(log.evicted)[t] == 1
    ensures t in log.tickets || t in log.evicted || t in log.dispatched
  {
    if t !in log.tickets && t !in log.evicted {
      assert t in multiset(log.dispatched);
    }
  }

  lemma LogPast(queue: seq<Queued>, log: Log)
    requires Kept(queue, log)
    ensures Past(log.accepted, log.dispatched)
  {
  }

  lemma TicketOf(queue: seq<Queued>, log: Log, k: nat)
    requires Kept(queue, log) && k < |queue|
    ensures |log.tickets| == |queue| && var t := log.tickets[k];
            if t < 0 then !Tracked(queue[k].command) else t < |log.accepted| && log.accepted[t] == queue[k]
  {
  }

  class CommandQueue {
    var queue: seq<Queued>
    ghost var clients: set<Async>
    ghost var log: Log
    ghost var answers: map<int, Answer>  // by ticket

    ghost predicate IdsKept()
      reads `queue, `clients, clients`outbound, clients`responses, clients`msgID
    {
      && QueueIds(queue) && (forall i :: 0 <= i < |queue| ==> Numbered(queue[i].command))
      && (forall c :: c in clients ==> HeldIds(c.outbound, c.responses, c.msgID))
      && forall c :: c in clients ==> Apart(c, queue, Held(c.outbound, c.responses))
    }

    ghost predicate AnswersKept()
      reads `log, `answers, `clients, clients`responses
    {
      && Answered(log.accepted, log.dispatched, answers)
      && forall c :: c in clients ==> Awaited(c, c.responses, log.accepted, answers)
    }

    /** Order, the window of every client, every id used once, and no dispatched command forgotten. */
    ghost predicate Valid()
      reads this, clients`noBufferedMessages, clients`outbound, clients`responses, clients`msgID
    {
      && (forall i :: 0 <= i < |queue| ==> queue[i].client in clients)
      && Kept(queue, log)
      && (forall c :: c in clients ==> Windowed(c, c.noBufferedMessages, queue, log.accepted))
      && IdsKept() && AnswersKept()
    }

    /** No request and no publish with a QoS above 0 is ever forgotten: it is queued, or was displaced by a newer
        publish, or went out and is accounted for; and while it awaits its acknowledgement it is among its client's
        responses, so that the client holds its id. */
    lemma NeverForgotten(t: nat)
      requires Valid() && t < |log.accepted| && log.accepted[t].client in clients
      requires var cmd := log.accepted[t].command; cmd.Subscribe? || cmd.Unsubscribe? || (cmd.Publish? && cmd.qos != 0)
      ensures t in log.tickets || t in log.evicted || t in answers
      ensures var c, cmd := log.accepted[t].client, log.accepted[t].command;
              t in answers && answers[t].Awaiting? ==> cmd in c.responses && cmd.token in Held(c.outbound, c.responses)
    {
      var c, cmd := log.accepted[t].client, log.accepted[t].command;
      assert multiset(log.tickets)[t] + multiset(log.dispatched)[t] + multiset(log.evicted)[t] == 1;
      assert t in log.tickets || t in log.evicted || t in log.dispatched by { InOne(log, t); }
      assert Awaited(c, c.responses, log.accepted, answers);
      HeldResponse(c.outbound, c.responses, cmd);
    }

    constructor (clients: set<Async>)
      requires forall c :: c in clients ==>
        c.noBufferedMessages == 0 && (c.options.CreateOptions? ==> c.options.maxBufferedMessages > 0)
      requires forall c :: c in clients ==> c.msgID == 0 && c.outbound == [] && c.responses == []
      ensures Valid() && this.clients == clients && queue == [] && log == Log([], [], [], []) && answers == map[]
    {
      hide Kept, Windowed, HeldIds, QueueIds, Apart, Held;
      this.clients, queue, log, answers := clients, [], Log([], [], [], []), map[];
      forall c | c in clients
        ensures Windowed(c, 0, [], []) && HeldIds([], [], 0) && QueueIds([]) && Apart(c, [], Held([], []))
      {
        NothingYet(c);
      }
      EmptyKept();
    }

    /** The selection loop of MQTTAsync_processCommand: the first command that heads its client's and is ready. */
    method Select() returns (found: bool, at: nat)
      ensures found ==> at < |queue| && First(queue, at) && Ready(queue[at])
      ensures found ==>
                var c, cmd := queue[at].client, queue[at].command;
                || cmd.Connect? || cmd.Disconnect?
                || (c.connected && !c.connecting && !c.pendingWrites && |c.outbound| < 65534 &&
                    ((cmd.Publish? && cmd.qos <= 0) || |c.outbound| < c.maxInflight))
      ensures forall i :: 0 <= i < (if found then at else |queue|) && First(queue, i) ==> !Ready(queue[i])
      ensures forall i :: 0 <= i < (if found then at else |queue|) && First(queue, i) ==>
                var c, cmd := queue[i].client, queue[i].command;
                && !cmd.Connect? && !cmd.Disconnect?
                && (!c.connected || c.connecting || c.pendingWrites || |c.outbound| >= 65534 ||
                    (!(cmd.Publish? && cmd.qos <= 0) && |c.outbound| >= c.maxInflight))
    {
      hide Urgent, First;
      var ignored: set<Async> := {};
      found, at := false, 0;
      while at < |queue| && !found
        invariant at <= |queue| && forall c :: c in ignored <==> exists i :: 0 <= i < at && queue[i].client == c
        invariant forall i :: 0 <= i < at && First(queue, i) ==> !Ready(queue[i])
        invariant found ==> at < |queue| && First(queue, at) && Ready(queue[at])
        decreases |queue| - at, !found
      {
        var cmd := queue[at];
        var c := cmd.client;
        Heads(queue, at, ignored);
        if c !in ignored {
          if cmd.command.Connect? || cmd.command.Disconnect? || (c.connected && !c.connecting && !c.pendingWrites) {
            if (cmd.command.Publish? || cmd.command.Subscribe? || cmd.command.Unsubscribe?) &&
              |c.outbound| >= MAX_MSG_ID - 1 {
              // no more message ids available
            } else if ((cmd.command.Publish? && cmd.command.qos > 0) || cmd.command.Subscribe? ||
              cmd.command.Unsubscribe?) && |c.outbound| >= c.maxInflight {
              // flow control
            } else {
              found := true;
            }
          }
          ignored := ignored + (if found then {} else {c});
        }
        if !found {
          at := at + 1;
        }
      }
    }

    /** MQTTAsync_processCommand. A publish with a QoS above 0 enters the in-flight list (MQTTProtocol_startPublish)
        however its write ends; what awaits a response goes to the client's list of responses. */
    method ProcessCommand(outcome: Outcome) returns (r: Choice, ghost at: nat)
      requires Valid()
      modifies this`queue, this`log, this`answers, clients`noBufferedMessages, clients`outbound, clients`responses
      ensures Valid() && clients == old(clients)
      ensures r.NoneReady? ==>
                queue == old(queue) && log == old(log) && answers == old(answers)
                && forall i :: 0 <= i < |queue| && First(queue, i) ==> !old(Ready(queue[i]))
      ensures r.Chosen? ==>
                at < |old(queue)| && r.q == old(queue)[at] && First(old(queue), at) && old(Ready(queue[at]))
                && queue == Without(old(queue), at) && log == Dispatched(old(log), at)
      ensures r.Chosen? ==>
                var c, cmd := r.q.client, r.q.command;
                && c in clients
                && c.outbound == old(c.outbound) + (if cmd.Publish? && cmd.qos > 0 then [cmd.token] else [])
                && (cmd.Publish? && cmd.qos > 0 ==> |c.outbound| <= c.maxInflight)
                && (cmd.Connect? || cmd.Disconnect? || (c.connected && !c.connecting && !c.pendingWrites))
      ensures r.Chosen? ==>
                var c, cmd, t := r.q.client, r.q.command, old(log).tickets[at];
                if cmd.Subscribe? || cmd.Unsubscribe? || (cmd.Publish? && cmd.qos != 0) then
                  && answers == old(answers)[t := if outcome.Failed? then NotWritten else Awaiting]
                  && c.responses == (if outcome.Failed? then old(c.responses) else old(c.responses) + [cmd])
                  && (!outcome.Failed? ==> cmd.token in Held(c.outbound, c.responses))
                else
                  && answers == old(answers)
                  && c.responses ==
                       (if cmd.Publish? && outcome.Interrupted? then old(c.responses) + [cmd] else old(c.responses))
      ensures forall c :: c in clients && !(r.Chosen? && r.q.client == c) ==>
                c.outbound == old(c.outbound) && c.responses == old(c.responses)
                && c.noBufferedMessages == old(c.noBufferedMessages)
    {
      hide Kept, Windowed, Urgent, HeldIds, QueueIds, Apart, Held, Own, Numbered, Without, First, Answered, Awaited,
        Dispatched, Ready, Tracked;
      var found, k := Select();
      at := k;
      r := NoneReady;
      if found {
        var q := queue[k];
        r := Chosen(q);
        KeptDispatch(queue, log, k);
        KeptTickets(queue, log);
        RestIsFine(k);
        TicketOf(queue, log, k);
        DispatchedKeeps(log, k);
        HandleTracked(q, outcome, k);
        log := Dispatched(log, k);
        queue := Without(queue, k);
        assert AnswersKept();
        forall c | c in clients
          ensures Windowed(c, c.noBufferedMessages, queue, log.accepted)
          ensures HeldIds(c.outbound, c.responses, c.msgID) && Apart(c, queue, Held(c.outbound, c.responses))
        {
        }
        assert IdsKept();
      }
    }

    /** A dispatched command is accounted for; all clients' responses have what they await. */
    lemma NowAwaited(q: Queued, k: nat, was: seq<Command>, a: Answer)
      requires |log.tickets| == |queue| && k < |queue| && queue[k] == q
      requires Answered(log.accepted, log.dispatched, answers)
      requires var t := log.tickets[k];
               if t < 0 then !Tracked(q.command) else t < |log.accepted| && log.accepted[t] == q
      requires forall c :: c in clients ==>
        Awaited(c, if c == q.client then was else c.responses, log.accepted, answers)
      requires forall r :: r in was ==> r in q.client.responses
      requires Tracked(q.command) && a.Awaiting? ==> q.command in q.client.responses
      ensures var now := if Tracked(q.command) then answers[log.tickets[k] := a] else answers;
              && Answered(log.accepted, Dispatched(log, k).dispatched, now)
              && forall c :: c in clients ==> Awaited(c, c.responses, log.accepted, now)
    {
      var t := log.tickets[k];
      var now := if Tracked(q.command) then answers[t := a] else answers;
      hide Answered, Awaited, Tracked;
      if t >= 0 { AnsweredDispatch(log.accepted, log.dispatched, answers, t, now); }
      forall c | c in clients ensures Awaited(c, c.responses, log.accepted, now) {
        var before := if c == q.client then was else c.responses;
        AwaitedMore(c, before, log.accepted, answers, c.responses);
        if Tracked(q.command) {
          AwaitedDispatch(c, before, log.accepted, answers, t, a, c.responses);
        }
      }
    }

    /** Taking out a client's first command leaves everything else as it should be. */
    lemma RestIsFine(k: nat)
      requires Valid() && k < |queue| && First(queue, k)
      ensures forall c :: c in clients ==>
                Windowed(c, c.noBufferedMessages - (if PublishOf(c, queue[k]) then 1 else 0),
                         Without(queue, k), log.accepted)
                && Apart(c, Without(queue, k), Held(c.outbound, c.responses))
      ensures queue[k].client in clients && QueueIds(Without(queue, k))
      ensures forall i :: 0 <= i < |queue| - 1 ==>
        Numbered(Without(queue, k)[i].command) && Without(queue, k)[i].client in clients
    {
      hide Kept, Windowed, Urgent, HeldIds, QueueIds, Apart, Held, Own, Numbered;
      forall c | c in clients
        ensures Windowed(c, c.noBufferedMessages - (if PublishOf(c, queue[k]) then 1 else 0),
                         Without(queue, k), log.accepted)
        ensures QueueIds(Without(queue, k)) && Apart(c, Without(queue, k), Held(c.outbound, c.responses))
      {
        WindowedWithout(c, c.noBufferedMessages, queue, log.accepted, k);
        OwnSize(c, queue[k]);
        IdsWithout(queue, k, c, Held(c.outbound, c.responses));
      }
      NumberedWithout(queue, k);
      assert queue[k].client in clients;
      IdsWithout(queue, k, queue[k].client, Held(queue[k].client.outbound, queue[k].client.responses));
      assert forall i :: 0 <= i < |queue| - 1 ==> Without(queue, k)[i] == queue[if i < k then i else i + 1];
    }

    /** What becomes of the client when the k-th command is dispatched. */
    method Handle(q: Queued, outcome: Outcome, ghost k: nat)
      requires IdsKept() && q.client in clients && k < |queue| && queue[k] == q
      modifies q.client`noBufferedMessages, q.client`outbound, q.client`responses
      ensures var c, cmd := q.client, q.command;
              && c.noBufferedMessages == old(c.noBufferedMessages) - (if cmd.Publish? then 1 else 0)
              && c.outbound == old(c.outbound) + (if cmd.Publish? && cmd.qos > 0 then [cmd.token] else [])
              && c.responses == old(c.responses) +
                   (if cmd.Subscribe? || cmd.Unsubscribe? || (cmd.Publish? && cmd.qos != 0)
                    then (if outcome.Failed? then [] else [cmd])
                    else if cmd.Publish? && outcome.Interrupted? then [cmd] else [])
      ensures Tracked(q.command) && !outcome.Failed? ==>
        Token(q.command) in Held(q.client.outbound, q.client.responses)
      ensures HeldIds(q.client.outbound, q.client.responses, q.client.msgID)
      ensures Apart(q.client, Without(queue, k), Held(q.client.outbound, q.client.responses))
    {
      hide HeldIds, QueueIds, Held;
      var c, cmd := q.client, q.command;
      ghost var o, r := c.outbound, c.responses;
      if cmd.Publish? {
        c.noBufferedMessages := c.noBufferedMessages - 1;
        if cmd.qos > 0 {
          c.outbound := c.outbound + [cmd.token];
        }
      }
      if cmd.Connect? || cmd.Disconnect? {
        // freed; what it does to the connection is not part of the queue
      } else if cmd.Publish? && cmd.qos == 0 && !outcome.Failed? {
        if outcome.Interrupted? {
          c.responses := c.responses + [cmd];
        }
      } else if !outcome.Failed? {
        c.responses := c.responses + [cmd];
      }
      HeldMove(o, r, c.msgID, cmd, c.outbound, c.responses);
      HeldResponse(c.outbound, c.responses, cmd);
      hide Apart;
      IdsMove(queue, k, c, Held(o, r), Held(c.outbound, c.responses));
    }

    /** And what becomes of the account of dispatched commands. */
    method HandleTracked(q: Queued, outcome: Outcome, ghost k: nat)
      requires IdsKept() && q.client in clients && |log.tickets| == |queue| && k < |queue| && queue[k] == q
      requires var t := log.tickets[k];
               if t < 0 then !Tracked(q.command) else t < |log.accepted| && log.accepted[t] == q
      requires AnswersKept()
      modifies this`answers, q.client`noBufferedMessages, q.client`outbound, q.client`responses
      ensures var c, cmd := q.client, q.command;
              && c.noBufferedMessages == old(c.noBufferedMessages) - (if cmd.Publish? then 1 else 0)
              && c.outbound == old(c.outbound) + (if cmd.Publish? && cmd.qos > 0 then [cmd.token] else [])
      ensures var c, cmd, t := q.client, q.command, log.tickets[k];
              if cmd.Subscribe? || cmd.Unsubscribe? || (cmd.Publish? && cmd.qos != 0) then
                && answers == old(answers)[t := if outcome.Failed? then NotWritten else Awaiting]
                && c.responses == (if outcome.Failed? then old(c.responses) else old(c.responses) + [cmd])
                && (!outcome.Failed? ==> cmd.token in Held(c.outbound, c.responses))
              else
                && answers == old(answers)
                && c.responses ==
                     (if cmd.Publish? && outcome.Interrupted? then old(c.responses) + [cmd] else old(c.responses))
      ensures HeldIds(q.client.outbound, q.client.responses, q.client.msgID)
      ensures Apart(q.client, Without(queue, k), Held(q.client.outbound, q.client.responses))
      ensures Answered(log.accepted, Dispatched(log, k).dispatched, answers)
      ensures forall c :: c in clients ==> Awaited(c, c.responses, log.accepted, answers)
    {
      hide HeldIds, QueueIds, Held, Apart, Answered, Awaited, Numbered, Dispatched;
      Handle(q, outcome, k);
      ghost var a := if outcome.Failed? then NotWritten else Awaiting;
      NowAwaited(q, k, old(q.client.responses), a);
      if Tracked(q.command) {
        answers := answers[log.tickets[k] := a];
      }
    }

    /** The search for the client's first queued publish. */
    method OldestPublish(c: Async, ghost was: seq<Queued>, ghost accepted: seq<Queued>) returns (k: nat)
      requires was <= queue && Windowed(c, c.noBufferedMessages, was, accepted) && Full(c, c.noBufferedMessages)
      ensures k < |was| && PublishOf(c, was[k]) && FirstPublish(was, k)
    {
      hide Windowed;
      WindowHasPublish(c, c.noBufferedMessages, was, accepted);
      ghost var w :| 0 <= w < |was| && PublishOf(c, was[w]);
      k := 0;
      while k < |queue| && !PublishOf(c, queue[k])
        invariant k <= w && forall i :: 0 <= i < k ==> !PublishOf(c, was[i])
      {
        k := k + 1;
      }
    }

    /** A publish has been appended to a full buffer: the first queued publish of its client goes. */
    method DropOldest(q: Queued, ghost was: seq<Queued>, ghost past: Log) returns (ghost at: nat)
      requires q.command.Publish? && queue == was + [q] && Kept(queue, log) && IdsKept()
      requires log.accepted == past.accepted + [q] && log.dispatched == past.dispatched
      requires (forall i :: 0 <= i < |queue| ==> queue[i].client in clients) && q.client in clients
      requires forall c :: c in clients ==> Windowed(c, c.noBufferedMessages, was, past.accepted)
      requires Full(q.client, q.client.noBufferedMessages) && AnswersKept()
      modifies this`queue, this`log
      ensures Valid() && log.accepted == old(log.accepted) && log.dispatched == old(log.dispatched)
      ensures at < |was| && PublishOf(q.client, was[at]) && FirstPublish(was, at) && queue == Without(was, at) + [q]
    {
      hide Kept, Windowed, Publishes, HeldIds, QueueIds, Apart, Held, Numbered, Answered, Awaited;
      var k := OldestPublish(q.client, was, past.accepted);
      at := k;
      assert FirstPublish(queue, k);
      KeptEvict(queue, log, k);
      KeptTickets(queue, log);
      forall c | c in clients
        ensures Windowed(c, c.noBufferedMessages, Without(queue, k), log.accepted)
        ensures QueueIds(Without(queue, k)) && Apart(c, Without(queue, k), Held(c.outbound, c.responses))
      {
        WindowsSlide(c, c.noBufferedMessages, was, past.accepted, q, k);
        IdsWithout(queue, k, c, Held(c.outbound, c.responses));
      }
      NumberedWithout(queue, k);
      log := Evicted(log, k);
      queue := Without(queue, k);
      assert queue == Without(was, k) + [q];
    }

    /** The appending branch of MQTTAsync_addCommand. When the client's buffer is full its first queued publish is
        dropped. */
    method Append(q: Queued) returns (ghost evictedAt: nat)
      requires Valid() && q.client in clients && !Urgent(q.command)
      requires Numbered(q.command) && Fresh(queue, Held(q.client.outbound, q.client.responses), Token(q.command))
      modifies this`queue, this`log, q.client`noBufferedMessages
      ensures Valid() && clients == old(clients)
      ensures log.accepted == old(log.accepted) + [q] && log.dispatched == old(log.dispatched)
      ensures if q.command.Publish? && Full(q.client, old(q.client.noBufferedMessages))
              then evictedAt < |old(queue)| && PublishOf(q.client, old(queue)[evictedAt]) &&
                FirstPublish(old(queue), evictedAt)
                   && queue == Without(old(queue), evictedAt) + [q]
              else queue == old(queue) + [q] && log.evicted == old(log.evicted)
    {
      hide Kept, Windowed, Publishes, Urgent, Ticketed, Own, HeldIds, QueueIds, Apart, Held, Fresh, Numbered, Answered,
        Awaited;
      ghost var was, past := queue, log;
      LogPast(was, past);
      AnsweredAppend(past.accepted, past.dispatched, answers, q);
      evictedAt := 0;
      KeptAppend(was, past, q);
      forall c | c in clients ensures QueueIds(was + [q]) && Apart(c, was + [q], Held(c.outbound, c.responses)) {
        IdsAppend(was, Held(q.client.outbound, q.client.responses), q, c, Held(c.outbound, c.responses));
      }
      assert QueueIds(was + [q]);
      queue := queue + [q];
      log := log.(accepted := log.accepted + [q], tickets := log.tickets + [|log.accepted|]);
      if q.command.Publish? && Full(q.client, q.client.noBufferedMessages) {
        evictedAt := DropOldest(q, was, past);
      } else {
        forall c | c in clients
          ensures Windowed(c, c.noBufferedMessages + |Own(c, q)|, was + [q], past.accepted + [q])
          ensures |Own(c, q)| == if PublishOf(c, q) then 1 else 0
        {
          WindowedAppend(c, c.noBufferedMessages, was, past.accepted, q);
          OwnSize(c, q);
        }
        if q.command.Publish? {
          q.client.noBufferedMessages := q.client.noBufferedMessages + 1;
        }
      }
    }

    /** MQTTAsync_addCommand. Connects and internal disconnects go to the head, unless the head is already one of that
        client's connects or disconnects. */
    method AddCommand(client: Async, command: Command) returns (rc: int, ghost evictedAt: nat)
      requires Valid() && client in clients
      requires Numbered(command) && Fresh(queue, Held(client.outbound, client.responses), Token(command))
      modifies this`queue, this`log, client`noBufferedMessages
      ensures Valid() && clients == old(clients) && log.dispatched == old(log.dispatched)
      ensures command.Connect? || command == Disconnect(true) ==>
        log.accepted == old(log.accepted) && log.evicted == old(log.evicted) &&
        client.noBufferedMessages == old(client.noBufferedMessages)
      ensures command.Connect? || command == Disconnect(true) ==>
                var head := old(queue);
                if head != [] && head[0].client == client && (head[0].command.Connect? || head[0].command.Disconnect?)
                then rc == -18 && queue == old(queue)
                else rc == 0 && queue == [Queued(client, command)] + old(queue)
      ensures !(command.Connect? || command == Disconnect(true)) ==>
        rc == 0 && log.accepted == old(log.accepted) + [Queued(client, command)]
      ensures !(command.Connect? || command == Disconnect(true)) ==>
                if command.Publish? && Full(client, old(client.noBufferedMessages))
                then evictedAt < |old(queue)| && PublishOf(client, old(queue)[evictedAt]) &&
                  FirstPublish(old(queue), evictedAt)
                     && queue == Without(old(queue), evictedAt) + [Queued(client, command)]
                else queue == old(queue) + [Queued(client, command)] && log.evicted == old(log.evicted)
    {
      hide Kept, Windowed, HeldIds, QueueIds, Apart, Held, Fresh;
      var q := Queued(client, command);
      rc := MQTTASYNC_SUCCESS;
      evictedAt := 0;
      if command.Connect? || (command.Disconnect? && command.internal) {
        var current, head := if |queue| > 0 then 0 else -1, false;
        while current >= 0
          invariant current <= 0 && current < |queue|
          invariant current < 0 ==> !HeadedBy(queue, client)
          invariant !head
          modifies {}
        {
          var cur := queue[current];
          if !cur.command.Connect? && !cur.command.Disconnect? {
            break;
          }
          if cur.client == client {
            head := true;
            break;
          }
          current := current - 1;  // current = current->prev
        }
        if head {
          rc := MQTTASYNC_COMMAND_IGNORED;
        } else {
          KeptInsert(queue, log, q);
          forall c | c in clients
            ensures Windowed(c, c.noBufferedMessages, [q] + queue, log.accepted)
          {
            WindowedInsert(c, c.noBufferedMessages, queue, log.accepted, q);
          }
          forall c | c in clients
            ensures QueueIds([q] + queue) && Apart(c, [q] + queue, Held(c.outbound, c.responses))
          {
            IdsInsert(queue, q, c, Held(c.outbound, c.responses));
          }
          assert QueueIds([q] + queue);
          queue := [q] + queue;
          log := log.(tickets := [-1] + log.tickets);
        }
      } else {
        evictedAt := Append(q);
      }
    }

    /** MQTTAsync_assignMsgId: an id that no queued command of any client has, and that the client does not hold. */
    method AssignMsgId(client: Async) returns (msgid: int)
      requires Valid() && client in clients && CanAssign(queue, client)
      modifies client`msgID
      ensures Valid() && msgid == NextId(queue, old(client.msgID), Held(client.outbound, client.responses))
      ensures client.msgID == if msgid != 0 then msgid else old(client.msgID)
      ensures Fresh(queue, Held(client.outbound, client.responses), msgid)
      ensures msgid != 0 ==>
        && (forall i :: 0 <= i < |queue| ==> Token(queue[i].command) != msgid)
        && (forall t :: t in answers && answers[t].Awaiting? && 0 <= t < |log.accepted| ==>
              log.accepted[t].client == client ==> Token(log.accepted[t].command) != msgid)
    {
      hide Kept, Windowed, QueueIds, Apart, Held, Tokens, Answered, Awaited, HeldIds, Numbered, Token, NextId,
        CanAssign;
      msgid := SearchId(client);
      if msgid != 0 {
        NobodysId(queue, client, client.outbound, client.responses, log.accepted, answers, msgid);
        IdsStay(client.outbound, client.responses, client.msgID, msgid);
        client.msgID := msgid;
      }
      assert AnswersKept() && IdsKept();
    }

    method SearchId(client: Async) returns (msgid: int)
      requires HeldIds(client.outbound, client.responses, client.msgID) && CanAssign(queue, client)
      ensures msgid == NextId(queue, client.msgID, Held(client.outbound, client.responses))
      ensures msgid != 0 ==> IsId(msgid) && msgid !in Tokens(queue) + Held(client.outbound, client.responses)
    {
      hide Held, Tokens;
      NextIdFree(queue, client.msgID, Held(client.outbound, client.responses));
      msgid := MsgId.AssignMsgId(client.msgID, Tokens(queue) + Held(client.outbound, client.responses));
    }

    /** MQTTAsync_send. `badOptions` says whether the response options do not suit the protocol version. Unless
        deleteOldestMessages is set, a full buffer refuses the newest; its id has been assigned by then. */
    method Send(client: Async, validTopic: bool, badOptions: bool, qos: int, retained: bool, topic: string,
                payload: string) returns (rc: int, ghost token: int)
      requires Valid() && client in clients && (qos > 0 ==> CanAssign(queue, client))
      modifies this`queue, this`log, client`noBufferedMessages, client`msgID
      ensures Valid() && clients == old(clients) && log.dispatched == old(log.dispatched)
      ensures token ==
        if qos > 0 then NextId(old(queue), old(client.msgID), Held(client.outbound, client.responses)) else 0
      ensures var o := client.options;
              var offline := o.CreateOptions? && o.sendWhileDisconnected &&
                             (client.shouldBeConnected || (o.version >= 2 && o.allowDisconnectedSendAtAnyTime));
              rc == if !client.connected && !offline then -3 else if !validTopic then -5
                    else if qos < 0 || qos > 2 then -9 else if qos > 0 && token == 0 then -10
                    else if o.CreateOptions? && !(o.version >= 2 && o.deleteOldestMessages) &&
                            old(client.noBufferedMessages) >= o.maxBufferedMessages then -12
                    else if badOptions then -15 else 0
      ensures rc == MQTTASYNC_SUCCESS ==>
                log.accepted == old(log.accepted) + [Queued(client, Publish(token, qos, retained, topic, payload))]
      ensures rc != MQTTASYNC_SUCCESS ==>
                queue == old(queue) && log == old(log) && client.noBufferedMessages == old(client.noBufferedMessages)
      ensures client.msgID == if AssignsFirst(rc) && token != 0 then token else old(client.msgID)
      ensures !(client.options.CreateOptions? && client.options.version >= 2 && client.options.deleteOldestMessages) ==>
        log.evicted == old(log.evicted)
    {
      hide Kept, Windowed, HeldIds, QueueIds, Apart, Held, Fresh, NextId, CanAssign;
      token := if qos > 0 then NextId(queue, client.msgID, Held(client.outbound, client.responses)) else 0;
      rc := MQTTASYNC_SUCCESS;
      if !client.connected {
        if client.options.NoOptions? {
          rc := MQTTASYNC_DISCONNECTED;
        } else if !client.options.sendWhileDisconnected {
          rc := MQTTASYNC_DISCONNECTED;
        } else if !client.shouldBeConnected &&
          (client.options.version < 2 || !client.options.allowDisconnectedSendAtAnyTime) {
          rc := MQTTASYNC_DISCONNECTED;
        }
      }
      if rc != MQTTASYNC_SUCCESS {
        return;
      }
      var msgid := 0;
      if !validTopic {
        return MQTTASYNC_BAD_UTF8_STRING, token;
      }
      if qos < 0 || qos > 2 {
        return MQTTASYNC_BAD_QOS, token;
      }
      if qos > 0 {
        msgid := AssignMsgId(client);
      } else {
        NoToken(queue, Held(client.outbound, client.responses));
      }
      if qos > 0 && msgid == 0 {
        rc := MQTTASYNC_NO_MORE_MSGIDS;
      } else if client.options.CreateOptions? && (client.options.version < 2 || !client.options.deleteOldestMessages)
          && client.noBufferedMessages >= client.options.maxBufferedMessages {
        rc := MQTTASYNC_MAX_BUFFERED_MESSAGES;
      } else if badOptions {
        rc := MQTTASYNC_BAD_MQTT_OPTION;
      }
      if rc != MQTTASYNC_SUCCESS {
        return;
      }
      ghost var at;
      rc, at := AddCommand(client, Publish(msgid, qos, retained, topic, payload));
    }

    /** MQTTAsync_subscribeMany and MQTTAsync_unsubscribeMany; `check` is the result of looking at topics and QoS. */
    method Request(client: Async, unsubscribe: bool, check: int, badOptions: bool) returns (rc: int, ghost token: int)
      requires Valid() && client in clients && CanAssign(queue, client)
      requires check in {MQTTASYNC_SUCCESS, MQTTASYNC_BAD_UTF8_STRING, MQTTASYNC_BAD_QOS}
      modifies this`queue, this`log, client`noBufferedMessages, client`msgID
      ensures Valid() && clients == old(clients) && log.dispatched == old(log.dispatched) &&
        log.evicted == old(log.evicted)
      ensures token == NextId(old(queue), old(client.msgID), Held(client.outbound, client.responses))
      ensures rc == if !client.connected then -3 else if check != 0 then check else if token == 0 then -10
                    else if badOptions then -15 else 0
      ensures rc == MQTTASYNC_SUCCESS ==>
                queue == old(queue) + [Queued(client, if unsubscribe then Unsubscribe(token) else Subscribe(token))]
      ensures rc != MQTTASYNC_SUCCESS ==> queue == old(queue) && log == old(log)
      ensures client.msgID == if AssignsFirst(rc) && token != 0 then token else old(client.msgID)
    {
      hide Kept, Windowed, HeldIds, QueueIds, Apart, Held, Fresh, NextId, CanAssign;
      token := NextId(queue, client.msgID, Held(client.outbound, client.responses));
      if !client.connected {
        return MQTTASYNC_DISCONNECTED, token;
      }
      if check != MQTTASYNC_SUCCESS {
        return check, token;
      }
      var msgid := AssignMsgId(client);
      if msgid == 0 {
        return MQTTASYNC_NO_MORE_MSGIDS, token;
      }
      if badOptions {
        return MQTTASYNC_BAD_MQTT_OPTION, token;
      }
      ghost var at;
      rc, at := AddCommand(client, if unsubscribe then Unsubscribe(msgid) else Subscribe(msgid));
    }

    /** An acknowledgement: PUBACK, PUBCOMP and a PUBREC with an error drop the in-flight message with that id, if there
        is one that awaits them; these, SUBACK and UNSUBACK take the first response with that id. */
    method Acknowledge(client: Async, id: int, drops: bool)
      requires Valid() && client in clients
      modifies this`answers, client`outbound, client`responses
      ensures Valid()
      ensures answers.Keys == old(answers).Keys && forall t :: t in answers && 0 <= t < |log.accepted| ==>
        answers[t] == if old(answers)[t].Awaiting? && log.accepted[t].client == client &&
                         Token(log.accepted[t].command) == id
                      then Acknowledged else old(answers)[t]
      ensures client.outbound == if drops then RemoveFirst(old(client.outbound), x => x == id) else old(client.outbound)
      ensures client.responses == RemoveFirst(old(client.responses), c => Token(c) == id)
    {
      hide Kept, Windowed, QueueIds, RemoveFirst, Answered, Awaited, Settle, Numbered, Token, HeldIds, Apart, Held;
      ghost var o, r := client.outbound, client.responses;
      if drops {
        client.outbound := RemoveFirst(client.outbound, x => x == id);
      }
      client.responses := RemoveFirst(client.responses, c => Token(c) == id);
      HeldLess(o, r, client.msgID, client.outbound, client.responses, id);
      IdsLess(client, Held(o, r), Held(client.outbound, client.responses));
      AwaitedOthers(client, r, log.accepted, answers, id);
      SettleKeeps(answers, log.accepted, log.dispatched, client, c => Token(c) == id, Acknowledged);
      answers := Settle(answers, log.accepted, client, c => Token(c) == id, Acknowledged);
      assert AnswersKept() && IdsKept();
    }

    lemma IdsLess(c: Async, was: set<int>, now: set<int>)
      requires Apart(c, queue, was) && now <= was
      ensures Apart(c, queue, now)
    {
    }

    /** MQTTAsync_cleanSession: queued commands stay, with their ids. */
    method CleanSession(client: Async)
      requires Valid() && client in clients
      modifies this`answers, client`outbound, client`responses, client`msgID
      ensures Valid() && client.outbound == [] && client.responses == [] && client.msgID == 0
      ensures answers.Keys == old(answers).Keys && forall t :: t in answers && 0 <= t < |log.accepted| ==>
        answers[t] == if old(answers)[t].Awaiting? && log.accepted[t].client == client then Cleaned else old(answers)[t]
    {
      hide Kept, Windowed, QueueIds, Answered, Awaited, Settle, Numbered, Token, HeldIds, Apart, Held;
      client.outbound, client.responses, client.msgID := [], [], 0;
      NothingHeld(client, queue);
      AwaitedNone(client, log.accepted, answers);
      SettleKeeps(answers, log.accepted, log.dispatched, client, _ => true, Cleaned);
      answers := Settle(answers, log.accepted, client, _ => true, Cleaned);
      assert AnswersKept() && IdsKept();
    }
  }

  function RemoveFirst<T>(s: seq<T>, p: T -> bool): seq<T> {
    var k := FirstMatch(s, p);
    if k < |s| then Without(s, k) else s
  }

  lemma RemoveFirstKeeps<T>(s: seq<T>, p: T -> bool)
    ensures forall x :: x in RemoveFirst(s, p) ==> x in s
    ensures forall i, j :: 0 <= i < j < |RemoveFirst(s, p)| ==>
              exists k, l :: 0 <= k < l < |s| && s[k] == RemoveFirst(s, p)[i] && s[l] == RemoveFirst(s, p)[j]
  {
    var n := FirstMatch(s, p);
    var t := RemoveFirst(s, p);
    forall i, j | 0 <= i < j < |t| ensures exists k, l :: 0 <= k < l < |s| && s[k] == t[i] && s[l] == t[j] {
      var k, l := if i < n then i else i + 1, if j < n then j else j + 1;
      assert n < |s| ==> s[k] == t[i] && s[l] == t[j];
      assert n >= |s| ==> s[i] == t[i] && s[j] == t[j];
    }
  }

  /** Giving up ids keeps the rest apart. */
  lemma HeldLess(outbound: seq<int>, responses: seq<Command>, msgID: int, o: seq<int>, r: seq<Command>, id: int)
    requires HeldIds(outbound, responses, msgID)
    requires o == outbound || o == RemoveFirst(outbound, x => x == id)
    requires r == responses || r == RemoveFirst(responses, c => Token(c) == id)
    ensures HeldIds(o, r, msgID) && Held(o, r) <= Held(outbound, responses)
  {
    RemoveFirstKeeps(outbound, x => x == id);
    RemoveFirstKeeps(responses, c => Token(c) == id);
    hide RemoveFirst;
    assert forall i :: 0 <= i < |r| ==> r[i] in r;
  }

  lemma NoToken(queue: seq<Queued>, held: set<int>)
    ensures Fresh(queue, held, 0)
  {
  }

  /** The id the search finds, 0 for none. */
  function NextId(queue: seq<Queued>, last: int, held: set<int>): int {
    Assign(last, Tokens(queue) + held)
  }

  lemma NextIdFree(queue: seq<Queued>, last: int, held: set<int>)
    requires 0 <= last <= MAX_MSG_ID
    ensures var id := NextId(queue, last, held); id != 0 ==> IsId(id) && id !in Tokens(queue) + held
  {
    hide Tokens;
    AssignSpec(last, Tokens(queue) + held);
  }

  /** The search ends; see MsgId.NeverEnds. */
  ghost predicate CanAssign(queue: seq<Queued>, c: Async)
    reads c`msgID, c`outbound, c`responses
  {
    c.msgID != 0 || exists i :: IsId(i) && i !in Tokens(queue) + Held(c.outbound, c.responses)
  }

  /** The checks behind the assignment. */
  predicate AssignsFirst(rc: int) {
    rc in {MQTTASYNC_SUCCESS, MQTTASYNC_MAX_BUFFERED_MESSAGES, MQTTASYNC_BAD_MQTT_OPTION}
  }

  predicate HeadedBy(queue: seq<Queued>, client: Async) {
    queue != [] && queue[0].client == client && (queue[0].command.Connect? || queue[0].command.Disconnect?)
  }

  predicate Full(c: Async, n: int) {
    c.options.CreateOptions? && n >= c.options.maxBufferedMessages
  }

  lemma Heads(queue: seq<Queued>, at: nat, ignored: set<Async>)
    requires at < |queue| && forall c :: c in ignored <==> exists i :: 0 <= i < at && queue[i].client == c
    ensures First(queue, at) <==> queue[at].client !in ignored
  {
  }

  lemma OwnSize(c: Async, q: Queued)
    ensures |Own(c, q)| == if PublishOf(c, q) then 1 else 0
  {
  }

  /** A full window is not empty. */
  lemma WindowHasPublish(c: Async, n: int, queue: seq<Queued>, accepted: seq<Queued>)
    requires Windowed(c, n, queue, accepted) && Full(c, n)
    ensures exists i :: 0 <= i < |queue| && PublishOf(c, queue[i])
  {
    if forall i :: 0 <= i < |queue| ==> !PublishOf(c, queue[i]) {
      NoPublishes(c, queue);
    }
  }

  lemma WindowsSlide(c: Async, n: int, queue: seq<Queued>, accepted: seq<Queued>, q: Queued, k: nat)
    requires Windowed(c, n, queue, accepted) && q.command.Publish? && k < |queue + [q]|
    requires q.client == c ==> Full(c, n)
    requires PublishOf(q.client, (queue + [q])[k]) && FirstPublish(queue + [q], k)
    ensures Windowed(c, n, Without(queue + [q], k), accepted + [q])
  {
    hide Windowed;
    if q.client == c {
      WindowedSlide(c, n, queue, accepted, q, k);
    } else {
      WindowedAppend(c, n, queue, accepted, q);
      WindowedWithout(c, n, queue + [q], accepted + [q], k);
    }
  }

  lemma NumberedWithout(queue: seq<Queued>, k: nat)
    requires k < |queue| && forall i :: 0 <= i < |queue| ==> Numbered(queue[i].command)
    ensures forall i :: 0 <= i < |queue| - 1 ==> Numbered(Without(queue, k)[i].command)
  {
    hide Numbered;
  }

  lemma KeptTickets(queue: seq<Queued>, log: Log)
    requires Kept(queue, log)
    ensures |log.tickets| == |queue|
  {
  }
}
