/** Keep alive: MQTTProtocol_keepalive over all clients, and the bound it gives on a server that has gone silent
    (section 3.1.2.10 of MQTT 3.1.1). Times are in milliseconds, the interval in seconds. */
module KeepAlive {

  datatype Watch = Watch(
    connected: bool, interval: nat, outstanding: bool, due: bool, dueTime: int,
    lastSent: int, lastReceived: int, lastPing: int)

  function Closed(w: Watch): Watch {
    w.(connected := false, outstanding := false, due := false)
  }

  function Pinged(w: Watch, now: int): Watch {
    w.(outstanding := true, due := false, lastPing := now, lastSent := now)
  }

  /** What the pings are for: a client is given up on once a ping has waited one and a half intervals, and one is sent
      when nothing has gone either way for an interval. */
  function Check(w: Watch, now: int, writable: bool, completes: bool): Watch {
    var patience, idle := w.interval * 1500, w.interval * 1000;
    if !w.connected || w.interval == 0 then w
    else if w.outstanding then
      if now - w.lastPing >= patience && now - w.lastReceived >= patience then Closed(w) else w
    else if w.due && now - w.dueTime >= patience then
      if w.lastReceived <= w.dueTime then Closed(w) else w
    else if now - w.lastSent >= idle then
      if writable then (if completes then Pinged(w, now) else Closed(w))
      else if w.due then w else w.(due := true, dueTime := now)
    else if now - w.lastReceived >= idle && writable then
      if completes then Pinged(w, now) else Closed(w)
    else w
  }

  /** The client's fields and those of its socket; `writable` is Socket_noPendingWrites, `completes` whether a PINGREQ
      written now goes out whole. */
  class Client {
    var connected: bool
    const keepAliveInterval: nat
    var pingOutstanding: bool
    var pingDue: bool
    var pingDueTime: int
    var lastSent: int
    var lastReceived: int
    var lastPing: int
    var writable: bool
    var completes: bool

    constructor (interval: nat, now: int)
      ensures View() == Watch(true, interval, false, false, 0, now, now, 0)
    {
      connected, keepAliveInterval, pingOutstanding, pingDue, pingDueTime := true, interval, false, false, 0;
      lastSent, lastReceived, lastPing, writable, completes := now, now, 0, true, true;
    }

    ghost function View(): Watch
      reads this
    {
      Watch(connected, keepAliveInterval, pingOutstanding, pingDue, pingDueTime, lastSent, lastReceived, lastPing)
    }

    method CloseSession()
      modifies this
      ensures View() == Closed(old(View())) && writable == old(writable) && completes == old(completes)
    {
      pingOutstanding := false;
      pingDue := false;
      connected := false;
    }

    method Ping(now: int)
      modifies this
      ensures View() == (if completes then Pinged(old(View()), now) else Closed(old(View())))
      ensures writable == old(writable) && completes == old(completes)
    {
      if !completes {
        CloseSession();
      } else {
        lastSent := now;
        pingDue := false;
        lastPing := now;
        pingOutstanding := true;
      }
    }

    /** MQTTProtocol_handlePingresps; the packet's bytes have already set lastReceived. */
    method HandlePingresp()
      modifies this`pingOutstanding
      ensures View() == old(View()).(outstanding := false)
    {
      pingOutstanding := false;
    }
  }

  /** MQTTProtocol_keepalive: each client of the list is checked once, and no other is touched. */
  method Keepalive(clients: seq<Client>, now: int)
    requires forall i, j :: 0 <= i < j < |clients| ==> clients[i] != clients[j]
    modifies clients
    ensures forall c :: c in clients ==> c.View() == Check(old(c.View()), now, old(c.writable), old(c.completes))
    ensures forall c :: c in clients && (c.keepAliveInterval == 0 || !old(c.connected)) ==> c.View() == old(c.View())
  {
    hide Check;
    var current := 0;
    while current < |clients|
      invariant current <= |clients|
      invariant forall i :: 0 <= i < current ==>
        clients[i].View() == Check(old(clients[i].View()), now, old(clients[i].writable), old(clients[i].completes))
      invariant forall i :: 0 <= i < current && (clients[i].keepAliveInterval == 0 || !old(clients[i].connected)) ==>
        clients[i].View() == old(clients[i].View())
      invariant forall i :: current <= i < |clients| ==> unchanged(clients[i])
    {
      var client := clients[current];
      current := current + 1;
      KeepaliveOf(client, now);
    }
  }

  method KeepaliveOf(client: Client, now: int)
    modifies client
    ensures client.View() == Check(old(client.View()), now, old(client.writable), old(client.completes))
    ensures client.keepAliveInterval == 0 || !old(client.connected) ==> client.View() == old(client.View())
    ensures client.pingOutstanding && !old(client.pingOutstanding) ==>
              && client.connected && !client.pingDue && client.lastPing == client.lastSent == now
              && (now - old(client.lastSent) >= 1000 * client.keepAliveInterval ||
                  now - client.lastReceived >= 1000 * client.keepAliveInterval)
    ensures client.lastReceived == old(client.lastReceived)
  {
    if !client.connected || client.keepAliveInterval == 0 {
      return;
    }
    if client.pingOutstanding {
      if now - client.lastPing >= client.keepAliveInterval * 1500 &&
        now - client.lastReceived >= client.keepAliveInterval * 1500 {
        client.CloseSession();
      }
    } else if client.pingDue && now - client.pingDueTime >= client.keepAliveInterval * 1500 {
      if now - client.pingDueTime <= now - client.lastReceived {
        client.CloseSession();
      }
    } else if now - client.lastSent >= client.keepAliveInterval * 1000 {
      if client.writable {
        client.Ping(now);
      } else if !client.pingDue {
        client.pingDue := true;
        client.pingDueTime := now;
      }
    } else if now - client.lastReceived >= client.keepAliveInterval * 1000 {
      if client.writable {
        client.Ping(now);
      }
    }
  }

  // ---- runs of one connection

  /** `lastCall` is when keepalive last ran, `unanswered` how many pings the server owes a PINGRESP for. */
  datatype Link = Link(w: Watch, clock: int, lastCall: int, unanswered: nat)

  datatype Step =
    | Call(writable: bool, completes: bool)   // MQTTProtocol_keepalive runs
    | SendPacket                              // the client sends something else
    | Receive                                 // part of a packet arrives
    | Pingresp                                // a PINGRESP arrives
    | Fail                                    // the session is closed for another reason

  function Apply(l: Link, s: Step, now: int): Link {
    var at := l.(clock := now);
    match s
    case Call(writable, completes) =>
      var w := Check(l.w, now, writable, completes);
      at.(w := w, lastCall := now,
          unanswered := if w.outstanding && !l.w.outstanding then l.unanswered + 1 else l.unanswered)
    case SendPacket => at.(w := l.w.(lastSent := now))
    case Receive => at.(w := l.w.(lastReceived := now))
    case Pingresp =>
      at.(w := l.w.(lastReceived := now, outstanding := false),
          unanswered := if l.unanswered > 0 then l.unanswered - 1 else 0)
    case Fail => at.(w := Closed(l.w))
  }

  /** Time does not run backwards, keepalive is never more than `gap` late, and the server answers only pings it got. */
  ghost predicate Timely(l: Link, s: Step, now: int, gap: nat) {
    l.clock <= now <= l.lastCall + gap && (s == Pingresp ==> l.unanswered > 0)
  }

  ghost predicate Timed(l: Link, steps: seq<(Step, int)>, gap: nat)
    decreases |steps|
  {
    steps == [] || (Timely(l, steps[0].0, steps[0].1, gap) && Timed(Apply(l, steps[0].0, steps[0].1), steps[1..], gap))
  }

  function Run(l: Link, steps: seq<(Step, int)>): Link
    decreases |steps|
  {
    if steps == [] then l else Run(Apply(l, steps[0].0, steps[0].1), steps[1..])
  }

  /** A connection just made: keepalive has run no later than now, and less than an interval before. */
  ghost predicate Opened(l: Link) {
    && l.w.interval > 0 && l.unanswered == 0 && l.w.connected && !l.w.outstanding && !l.w.due
    && l.w.lastSent <= l.clock && l.w.lastReceived <= l.clock
    && l.lastCall <= l.clock && l.lastCall < l.w.lastReceived + l.w.interval * 1000
  }

  /** A ping went out no later than the first call after a silent interval, and has not yet waited too long. */
  ghost predicate Watched(l: Link, gap: nat) {
    && l.w.interval > 0 && l.lastCall <= l.clock && l.w.lastReceived <= l.clock
    && (l.w.connected ==>
          && !l.w.due
          && (l.w.outstanding ==> l.unanswered == 1) && (!l.w.outstanding ==> l.unanswered == 0)
          && (!l.w.outstanding ==> l.lastCall < l.w.lastReceived + l.w.interval * 1000)
          && (l.w.outstanding ==>
                && l.w.lastPing <= l.w.lastReceived + l.w.interval * 1000 + gap
                && (l.lastCall < l.w.lastPing + l.w.interval * 1500 ||
                    l.lastCall < l.w.lastReceived + l.w.interval * 1500)))
  }

  /** The socket has nothing left to write when keepalive runs. */
  predicate Free(s: Step) {
    s.Call? ==> s.writable
  }

  lemma StepKeepsWatch(l: Link, s: Step, now: int, gap: nat)
    requires Watched(l, gap) && Timely(l, s, now, gap) && Free(s)
    ensures Watched(Apply(l, s, now), gap)
  {
  }

  lemma {:induction false} RunKeepsWatch(l: Link, steps: seq<(Step, int)>, gap: nat)
    requires Watched(l, gap) && Timed(l, steps, gap) && forall x :: x in steps ==> Free(x.0)
    ensures Watched(Run(l, steps), gap)
    decreases |steps|
  {
    hide Watched, Apply, Free;
    if steps != [] {
      assert steps[0] in steps && forall x :: x in steps[1..] ==> x in steps;
      StepKeepsWatch(l, steps[0].0, steps[0].1, gap);
      RunKeepsWatch(Apply(l, steps[0].0, steps[0].1), steps[1..], gap);
    }
  }

  /** In every run on a writable socket, once two and a half intervals and two gaps have passed since anything was
      received, the client is no longer connected: no further step can be timely on a live connection. At most one ping
      is unanswered throughout. */
  lemma SilentServerClosed(l: Link, steps: seq<(Step, int)>, gap: nat, s: Step, now: int)
    requires Opened(l) && Timed(l, steps, gap) && forall x :: x in steps ==> Free(x.0)
    requires Timely(Run(l, steps), s, now, gap)
    ensures var m := Run(l, steps);
            m.w.connected ==> now < m.w.lastReceived + 2500 * m.w.interval + 2 * gap && m.unanswered <= 1
  {
    hide Run, Timed;
    assert Watched(l, gap);
    RunKeepsWatch(l, steps, gap);
  }

  // ---- runs on a socket that may be busy

  function Later(a: int, b: int): int {
    if a < b then b else a
  }

  /** A ping has been put off because the socket was busy, and something was received since. */
  predicate PutOff(w: Watch) {
    w.due && w.lastReceived > w.dueTime
  }

  /** Once nothing has gone either way for an interval a ping has gone out or been put off, and neither has waited too
      long, unless something was received since it was put off. */
  ghost predicate Tended(l: Link, gap: nat) {
    var w, idle, patience := l.w, l.w.interval * 1000, l.w.interval * 1500;
    && w.interval > 0 && l.lastCall <= l.clock && w.lastReceived <= l.clock && w.lastSent <= l.clock
    && (w.connected ==>
          if w.outstanding then
            && !w.due && w.lastPing <= w.lastSent
            && (l.lastCall < w.lastPing + patience || l.lastCall < w.lastReceived + patience)
          else if w.due then
            && w.dueTime <= Later(w.lastSent, w.lastReceived) + idle + gap
            && (w.lastReceived <= w.dueTime ==> l.lastCall < w.dueTime + patience)
          else l.lastCall < Later(w.lastSent, w.lastReceived) + idle)
  }

  lemma StepKeepsTended(l: Link, s: Step, now: int, gap: nat)
    requires Tended(l, gap) && Timely(l, s, now, gap)
    ensures Tended(Apply(l, s, now), gap)
  {
  }

  lemma {:induction false} RunKeepsTended(l: Link, steps: seq<(Step, int)>, gap: nat)
    requires Tended(l, gap) && Timed(l, steps, gap)
    ensures Tended(Run(l, steps), gap)
    decreases |steps|
  {
    hide Tended, Apply;
    if steps != [] {
      StepKeepsTended(l, steps[0].0, steps[0].1, gap);
      RunKeepsTended(Apply(l, steps[0].0, steps[0].1), steps[1..], gap);
    }
  }

  /** In every run, however busy the socket is: once two and a half intervals and two gaps have passed since anything
      went either way, the client is no longer connected, unless something was received after a ping was put off. */
  lemma SilentLinkClosed(l: Link, steps: seq<(Step, int)>, gap: nat, s: Step, now: int)
    requires Opened(l) && Timed(l, steps, gap)
    requires Timely(Run(l, steps), s, now, gap)
    ensures var w := Run(l, steps).w;
            w.connected && !PutOff(w) ==> now < Later(w.lastSent, w.lastReceived) + 2500 * w.interval + 2 * gap
  {
    hide Run, Timed;
    assert Tended(l, gap);
    RunKeepsTended(l, steps, gap);
  }

  /** What the client sends counts there: one that keeps sending on a socket that is busy whenever keepalive runs is
      never closed, and no ping is put off, for as long as nothing is received. */
  lemma BusySender(n: nat) returns (l: Link, steps: seq<(Step, int)>)
    ensures Opened(l) && l.clock == 0 && l.w.interval == 1 && Timed(l, steps, 500)
    ensures var m := Run(l, steps); m.w.connected && !m.w.due && m.w.lastReceived == 0 && m.clock == 500 * n
  {
    l := Sending(0);
    steps := BusyRounds(0, n);
  }

  /** Half a second times k after the connection was made. */
  function Sending(k: nat): Link {
    Link(Watch(true, 1, false, false, 0, 500 * k, 0, 0), 500 * k, 500 * k, 0)
  }

  lemma {:induction false} BusyRounds(k: nat, n: nat) returns (steps: seq<(Step, int)>)
    ensures Timed(Sending(k), steps, 500) && Run(Sending(k), steps) == Sending(k + n)
    decreases n
  {
    if n == 0 {
      steps := [];
    } else {
      var at := 500 * (k + 1);
      var more := BusyRounds(k + 1, n - 1);
      var called := Apply(Sending(k), Call(false, true), at);
      assert Apply(called, SendPacket, at) == Sending(k + 1);
      var rest := [(SendPacket, at)] + more;
      assert rest[1..] == more;
      steps := [(Call(false, true), at)] + rest;
      assert steps[1..] == rest;
    }
  }

  /** An interval of 0 switches keep-alive off: whatever is sent, received or not, for however long, the connection is
      not pinged and not closed. */
  lemma {:induction false} SwitchedOff(l: Link, steps: seq<(Step, int)>)
    requires l.w.interval == 0 && l.w.connected && !l.w.outstanding && forall x :: x in steps ==> !x.0.Fail?
    ensures var m := Run(l, steps);
            && m.w.connected && !m.w.outstanding && m.w.due == l.w.due && m.w.lastPing == l.w.lastPing
            && m.unanswered <= l.unanswered
    decreases |steps|
  {
    if steps != [] {
      assert steps[0] in steps && forall x :: x in steps[1..] ==> x in steps;
      SwitchedOff(Apply(l, steps[0].0, steps[0].1), steps[1..]);
    }
  }

  /** Only silence closes a session, if pings can be written: nothing was received for one and a half intervals. */
  lemma ClosedOnlyInSilence(w: Watch, now: int, writable: bool, completes: bool)
    requires w.connected && !Check(w, now, writable, completes).connected
    ensures w.interval > 0
    ensures now >= w.lastReceived + 1500 * w.interval || (writable && !completes)
  {
  }

  // ---- a ping that is due

  /** A ping is due because the socket was busy, something was received since, and by the time the ping is overdue
      nothing else will have made a call send it. */
  ghost predicate Stuck(w: Watch, now: int) {
    var overdue := w.dueTime + 1500 * w.interval;
    && !w.outstanding && w.due && w.lastReceived > w.dueTime
    && (overdue <= now || (overdue <= w.lastSent + 1000 * w.interval && overdue <= w.lastReceived + 1000 * w.interval))
  }

  /** No call ever does anything again, whenever it comes and whatever the socket does. */
  ghost predicate NeverActs(w: Watch, now: int) {
    forall later: int, writable: bool, completes: bool :: now <= later ==> Check(w, later, writable, completes) == w
  }

  /** A call at which something happens, if there is one. */
  function Acts(w: Watch, now: int): int {
    var patience, idle := w.interval * 1500, w.interval * 1000;
    if w.outstanding then Later(now, Later(w.lastPing + patience, w.lastReceived + patience))
    else if !w.due then Later(now, w.lastSent + idle)
    else if w.lastReceived <= w.dueTime then Later(now, w.dueTime + patience)
    else Later(now, w.dueTime + patience - 1)
  }

  /** Keepalive never acts again exactly in the stuck states. */
  lemma NeverActsExactly(w: Watch, now: int)
    requires w.connected && w.interval > 0
    ensures NeverActs(w, now) <==> Stuck(w, now)
  {
    if !Stuck(w, now) {
      assert Check(w, Acts(w, now), true, true) != w;
    }
  }

  /** Nor does traffic help: a stuck session stays so through every step of its connection, for any socket. */
  lemma StuckStays(l: Link, s: Step, now: int)
    requires l.w.connected && l.w.interval > 0 && Stuck(l.w, l.clock) && l.clock <= now
    requires l.w.lastSent <= l.clock && l.w.lastReceived <= l.clock
    ensures s.Call? ==> Apply(l, s, now).w == l.w
    ensures !s.Fail? ==> Apply(l, s, now).w.connected && Stuck(Apply(l, s, now).w, now)
  {
  }

  /** Such a state arises: a socket that is busy at one call, and traffic before the next. */
  lemma StuckReached() returns (w: Watch)
    ensures var start := Watch(true, 1, false, false, 0, 0, 0, 0);
            var noted := Check(start, 1000, false, true);
            w == noted.(lastSent := 2000, lastReceived := 2000) && Stuck(w, 2000)
  {
    w := Check(Watch(true, 1, false, false, 0, 0, 0, 0), 1000, false, true).(lastSent := 2000, lastReceived := 2000);
  }
}
