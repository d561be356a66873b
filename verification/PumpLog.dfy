/** The pump server's own state log (src/shared.c): the current and previous status, a ring of the last command
    changes, and the snapshot table written only on a change. */
module PumpLog {

  const MAX_HISTORY := 100
  const STATUS_UNKNOWN := 0

  datatype Status = Status(pump1: int, pump2: int, pump1Status: int, pump2Status: int, busy: int, alarm: int)

  const ZERO := Status(0, 0, 0, 0, 0, 0)

  /** A status with its time, as an item of the ring or a row of the table. */
  datatype Row = Row(status: Status, timestamp: int)

  // ---- what the calls mean

  datatype Call =
    | Command(pump: int, state: int)
    | Feedback(pump: int, reported: int)
    | System(busy: int, alarm: int)

  function Checked(reported: int): int {
    if 0 <= reported <= 3 then reported else STATUS_UNKNOWN
  }

  function Meant(s: Status, c: Call): Status {
    match c
    case Command(1, state) => s.(pump1 := state)
    case Command(2, state) => s.(pump2 := state)
    case Feedback(1, reported) => s.(pump1Status := Checked(reported))
    case Feedback(2, reported) => s.(pump2Status := Checked(reported))
    case System(busy, alarm) => s.(busy := busy, alarm := alarm)
    case _ => s
  }

  /** A call for a pump that does not exist, taken for a change because it is compared with pump 2. */
  function IsStray(s: Status, c: Call): bool {
    match c
    case Command(pump, state) => pump != 1 && pump != 2 && state != s.pump2
    case Feedback(pump, reported) => pump != 1 && pump != 2 && Checked(reported) != s.pump2Status
    case System(_, _) => false
  }

  function Final(s: Status, calls: seq<Call>): Status
    decreases |calls|
  {
    if calls == [] then s else Final(Meant(s, calls[0]), calls[1..])
  }

  /** The status after each call. */
  function States(s: Status, calls: seq<Call>): seq<Status>
    decreases |calls|
  {
    if calls == [] then [] else [Meant(s, calls[0])] + States(Meant(s, calls[0]), calls[1..])
  }

  /** A sequence without its repetitions; `s` is the one before it. */
  function Changes(s: Status, states: seq<Status>): seq<Status>
    decreases |states|
  {
    if states == [] then []
    else (if states[0] == s then [] else [states[0]]) + Changes(states[0], states[1..])
  }

  function Strays(s: Status, calls: seq<Call>): nat
    decreases |calls|
  {
    if calls == [] then 0 else (if IsStray(s, calls[0]) then 1 else 0) + Strays(Meant(s, calls[0]), calls[1..])
  }

  /** The snapshots a run writes, and the command changes it puts into the ring. */
  function Written(s: Status, c: Call): seq<Status> {
    if Meant(s, c) != s || IsStray(s, c) then [Meant(s, c)] else []
  }

  function Snapshots(s: Status, calls: seq<Call>): seq<Status>
    decreases |calls|
  {
    if calls == [] then [] else Written(s, calls[0]) + Snapshots(Meant(s, calls[0]), calls[1..])
  }

  function CommandChanges(s: Status, calls: seq<Call>): seq<Status>
    decreases |calls|
  {
    if calls == [] then []
    else (if calls[0].Command? then Written(s, calls[0]) else []) + CommandChanges(Meant(s, calls[0]), calls[1..])
  }

  /** The snapshots hold every state the system went through, in order... */
  lemma {:induction false} SnapshotsLossless(s: Status, calls: seq<Call>)
    ensures Changes(s, Snapshots(s, calls)) == Changes(s, States(s, calls))
    decreases |calls|
  {
    if calls != [] {
      var t := Meant(s, calls[0]);
      SnapshotsLossless(t, calls[1..]);
      assert ([t] + States(t, calls[1..]))[1..] == States(t, calls[1..]);
      if Written(s, calls[0]) == [t] {
        assert ([t] + Snapshots(t, calls[1..]))[1..] == Snapshots(t, calls[1..]);
      } else {
        assert Written(s, calls[0]) + Snapshots(t, calls[1..]) == Snapshots(t, calls[1..]);
      }
    }
  }

  /** ... and one row too many for each call for a pump that does not exist. */
  lemma {:induction false} SnapshotCount(s: Status, calls: seq<Call>)
    ensures |Snapshots(s, calls)| == |Changes(s, States(s, calls))| + Strays(s, calls)
    decreases |calls|
  {
    if calls != [] {
      var t := Meant(s, calls[0]);
      SnapshotCount(t, calls[1..]);
      assert ([t] + States(t, calls[1..]))[1..] == States(t, calls[1..]);
      assert IsStray(s, calls[0]) ==> t == s;
    }
  }

  ghost predicate Alternating(s: Status, states: seq<Status>) {
    && (states != [] ==> states[0] != s)
    && forall i, j :: 0 <= i < j < |states| && j == i + 1 ==> states[i] != states[j]
  }

  lemma AlternatingTail(s: Status, states: seq<Status>)
    requires states != []
    ensures Alternating(s, states) <==> states[0] != s && Alternating(states[0], states[1..])
  {
    var rest := states[1..];
    assert forall i :: 0 <= i < |rest| ==> rest[i] == states[i + 1];
    if states[0] != s && Alternating(states[0], rest) {
      forall i, j | 0 <= i < j < |states| && j == i + 1 ensures states[i] != states[j] {
        assert states[j] == rest[i] && (i > 0 ==> states[i] == rest[i - 1]);
      }
    }
  }

  lemma {:induction false} ChangesAll(s: Status, states: seq<Status>)
    ensures Alternating(s, states) <==> |Changes(s, states)| == |states|
    ensures |Changes(s, states)| <= |states| && (Alternating(s, states) ==> Changes(s, states) == states)
    decreases |states|
  {
    if states != [] {
      AlternatingTail(s, states);
      ChangesAll(states[0], states[1..]);
    }
  }

  /** Consecutive snapshots differ, and the table is exactly the list of states without repetitions, if and only if the
      run has no such call. */
  lemma SnapshotsExact(s: Status, calls: seq<Call>)
    ensures Alternating(s, Snapshots(s, calls)) <==> Strays(s, calls) == 0
    ensures Snapshots(s, calls) == Changes(s, States(s, calls)) <==> Strays(s, calls) == 0
  {
    SnapshotsLossless(s, calls);
    SnapshotCount(s, calls);
    ChangesAll(s, Snapshots(s, calls));
  }

  /** The last snapshot is the current state in every run, such calls or not. */
  lemma {:induction false} LastSnapshot(s: Status, calls: seq<Call>)
    ensures var w := Snapshots(s, calls); Final(s, calls) == if w == [] then s else w[|w| - 1]
    decreases |calls|
  {
    if calls != [] {
      LastSnapshot(Meant(s, calls[0]), calls[1..]);
    }
  }

  lemma StrayExample() returns (calls: seq<Call>)
    ensures calls == [Command(3, 1), Command(3, 1)] && Snapshots(ZERO, calls) == [ZERO, ZERO]
  {
    calls := [Command(3, 1), Command(3, 1)];
    assert calls[1..] == [Command(3, 1)] && [Command(3, 1)][1..] == [];
  }

  lemma {:induction false} OneMore(s: Status, calls: seq<Call>, c: Call)
    ensures Final(s, calls + [c]) == Meant(Final(s, calls), c)
    ensures Snapshots(s, calls + [c]) == Snapshots(s, calls) + Written(Final(s, calls), c)
    ensures CommandChanges(s, calls + [c]) ==
      CommandChanges(s, calls) + (if c.Command? then Written(Final(s, calls), c) else [])
    decreases |calls|
  {
    hide Meant, Written;
    if calls == [] {
      assert [c][1..] == [];
      assert calls + [c] == [c];
    } else {
      assert (calls + [c])[1..] == calls[1..] + [c] && (calls + [c])[0] == calls[0];
      OneMore(Meant(s, calls[0]), calls[1..], c);
    }
  }

  // ---- every field is what the last call that names it says

  function Commands(pump: int): Call -> bool {
    (c: Call) => c.Command? && c.pump == pump
  }

  function Feedbacks(pump: int): Call -> bool {
    (c: Call) => c.Feedback? && c.pump == pump
  }

  function Systems(): Call -> bool {
    (c: Call) => c.System?
  }

  /** The k-th call is the last of its kind. */
  ghost predicate Last(calls: seq<Call>, k: int, kind: Call -> bool) {
    0 <= k < |calls| && kind(calls[k]) && forall j :: k < j < |calls| ==> !kind(calls[j])
  }

  ghost predicate None(calls: seq<Call>, kind: Call -> bool) {
    forall j :: 0 <= j < |calls| ==> !kind(calls[j])
  }

  lemma LastOneMore(calls: seq<Call>, c: Call, kind: Call -> bool)
    ensures None(calls + [c], kind) <==> None(calls, kind) && !kind(c)
    ensures forall k :: Last(calls + [c], k, kind) <==> if kind(c) then k == |calls| else Last(calls, k, kind)
  {
    var all := calls + [c];
    assert all[|calls|] == c && forall j :: 0 <= j < |calls| ==> all[j] == calls[j];
    forall k ensures Last(all, k, kind) <==> if kind(c) then k == |calls| else Last(calls, k, kind) {
    }
  }

  /** The commanded state of a pump is that of the last command for it. */
  lemma {:induction false} LastCommand(s: Status, calls: seq<Call>, pump: int)
    requires pump == 1 || pump == 2
    ensures var now, start := Final(s, calls), if pump == 1 then s.pump1 else s.pump2;
            var state := if pump == 1 then now.pump1 else now.pump2;
            && (forall k :: Last(calls, k, Commands(pump)) ==> state == calls[k].state)
            && (None(calls, Commands(pump)) ==> state == start)
    decreases |calls|
  {
    if calls != [] {
      var n := |calls| - 1;
      LastCommand(s, calls[..n], pump);
      assert calls == calls[..n] + [calls[n]];
      hide Final, Last, None;
      OneMore(s, calls[..n], calls[n]);
      LastOneMore(calls[..n], calls[n], Commands(pump));
    }
  }

  /** The reported status of a pump is that of the last feedback for it, 0 if that was not in 0..3. */
  lemma {:induction false} LastFeedback(s: Status, calls: seq<Call>, pump: int)
    requires pump == 1 || pump == 2
    ensures var now, start := Final(s, calls), if pump == 1 then s.pump1Status else s.pump2Status;
            var status := if pump == 1 then now.pump1Status else now.pump2Status;
            && (forall k :: Last(calls, k, Feedbacks(pump)) ==>
                  status == if 0 <= calls[k].reported <= 3 then calls[k].reported else 0)
            && (None(calls, Feedbacks(pump)) ==> status == start)
    decreases |calls|
  {
    if calls != [] {
      var n := |calls| - 1;
      LastFeedback(s, calls[..n], pump);
      assert calls == calls[..n] + [calls[n]];
      hide Final, Last, None;
      OneMore(s, calls[..n], calls[n]);
      LastOneMore(calls[..n], calls[n], Feedbacks(pump));
    }
  }

  /** The flags are those of the last system call. */
  lemma {:induction false} LastSystem(s: Status, calls: seq<Call>)
    ensures forall k :: Last(calls, k, Systems()) ==>
              Final(s, calls).busy == calls[k].busy && Final(s, calls).alarm == calls[k].alarm
    ensures None(calls, Systems()) ==> Final(s, calls).busy == s.busy && Final(s, calls).alarm == s.alarm
    decreases |calls|
  {
    if calls != [] {
      var n := |calls| - 1;
      LastSystem(s, calls[..n]);
      assert calls == calls[..n] + [calls[n]];
      hide Final, Last, None;
      OneMore(s, calls[..n], calls[n]);
      LastOneMore(calls[..n], calls[n], Systems());
    }
  }

  // ---- the log

  function Statuses(rows: seq<Row>): (r: seq<Status>)
    ensures |r| == |rows| && forall i :: 0 <= i < |rows| ==> r[i] == rows[i].status
  {
    if rows == [] then [] else [rows[0].status] + Statuses(rows[1..])
  }

  lemma StatusesConcat(a: seq<Row>, b: seq<Row>)
    ensures Statuses(a + b) == Statuses(a) + Statuses(b)
  {
  }

  /** The ring holds the last rows put into it: the j-th ever at slot j mod 100. */
  ghost predicate Holds(items: seq<Row>, index: int, count: int, pushed: seq<Row>) {
    && |items| == MAX_HISTORY
    && index == |pushed| % MAX_HISTORY
    && count == (if |pushed| < MAX_HISTORY then |pushed| else MAX_HISTORY)
    && forall j :: |pushed| - count <= j < |pushed| ==> items[j % MAX_HISTORY] == pushed[j]
  }

  lemma SlotsDiffer(j: nat, n: nat)
    requires n - MAX_HISTORY < j < n
    ensures j % MAX_HISTORY != n % MAX_HISTORY
  {
  }

  lemma HoldsPush(items: seq<Row>, index: int, count: int, pushed: seq<Row>, r: Row)
    requires Holds(items, index, count, pushed)
    ensures Holds(items[index := r], (index + 1) % MAX_HISTORY,
                  if count < MAX_HISTORY then count + 1 else count, pushed + [r])
  {
    var n := |pushed|;
    forall j | n + 1 - MAX_HISTORY <= j < n && 0 <= j ensures j % MAX_HISTORY != index {
      SlotsDiffer(j, n);
    }
  }

  class PumpServer {
    var current: Status
    var timestamp: int
    var previous: Status
    const items: array<Row>
    var index: nat
    var count: nat
    var snapshots: seq<Row>     // the table pump_snapshots
    ghost var calls: seq<Call>  // every call so far
    ghost var pushed: seq<Row>  // everything ever put into the ring

    ghost predicate Valid()
      reads this, items
    {
      && current == previous == Final(ZERO, calls)
      && Statuses(snapshots) == Snapshots(ZERO, calls)
      && Holds(items[..], index, count, pushed)
      && Statuses(pushed) == CommandChanges(ZERO, calls)
    }

    constructor ()
      ensures Valid() && calls == [] && fresh(items)
      ensures current == Status(0, 0, 0, 0, 0, 0) && snapshots == [] && pushed == []
    {
      current, timestamp, previous := ZERO, 0, ZERO;
      items := new Row[MAX_HISTORY](_ => Row(ZERO, 0));
      index, count, snapshots, calls, pushed := 0, 0, [], [], [];
    }

    method AddPumpHistory(r: Row)
      requires Holds(items[..], index, count, pushed)
      modifies this`index, this`count, this`pushed, items
      ensures Holds(items[..], index, count, pushed) && pushed == old(pushed) + [r]
      ensures count == if |pushed| < 100 then |pushed| else 100
      ensures forall j :: |pushed| - count <= j < |pushed| ==> items[j % 100] == pushed[j]
    {
      HoldsPush(items[..], index, count, pushed, r);
      ghost var was := items[..];
      items[index] := r;
      assert items[..] == was[index := r];
      index := (index + 1) % MAX_HISTORY;
      if count < MAX_HISTORY {
        count := count + 1;
      }
      pushed := pushed + [r];
    }

    method InsertSnapshot(r: Row)
      modifies this`snapshots
      ensures snapshots == old(snapshots) + [r] && Statuses(snapshots) == old(Statuses(snapshots)) + [r.status]
    {
      StatusesConcat(snapshots, [r]);
      snapshots := snapshots + [r];
    }

    method UpdatePumpStatus(pump: int, state: int, now: int)
      requires Valid()
      modifies this, items
      ensures Valid() && calls == old(calls) + [Command(pump, state)] && timestamp == now
      ensures current == old(current).(pump1 := if pump == 1 then state else old(current.pump1),
                                       pump2 := if pump == 2 then state else old(current.pump2))
      ensures var differs := (if pump == 1 then old(current.pump1) else old(current.pump2)) != state;
              snapshots == old(snapshots) + (if differs then [Row(current, now)] else []) &&
              pushed == old(pushed) + (if differs then [Row(current, now)] else [])
    {
      hide Holds, Final, Snapshots, CommandChanges, Statuses;
      OneMore(ZERO, calls, Command(pump, state));
      calls := calls + [Command(pump, state)];
      var previousState := if pump == 1 then previous.pump1 else previous.pump2;
      if pump == 1 {
        current := current.(pump1 := state);
      } else if pump == 2 {
        current := current.(pump2 := state);
      }
      timestamp := now;
      if previousState != state {
        StatusesConcat(pushed, [Row(current, timestamp)]);
        OneStatus(Row(current, timestamp));
        AddPumpHistory(Row(current, timestamp));
        InsertSnapshot(Row(current, timestamp));
        if pump == 1 {
          previous := previous.(pump1 := state);
        } else if pump == 2 {
          previous := previous.(pump2 := state);
        }
      }
    }

    method UpdatePumpFeedback(pump: int, reported: int, now: int)
      requires Valid()
      modifies this
      ensures Valid() && calls == old(calls) + [Feedback(pump, reported)] && timestamp == now
      ensures var status := if reported == 1 || reported == 2 || reported == 3 then reported else 0;
              && current == old(current).(pump1Status := if pump == 1 then status else old(current.pump1Status),
                                          pump2Status := if pump == 2 then status else old(current.pump2Status))
              && snapshots == old(snapshots) +
                   (if (if pump == 1 then old(current.pump1Status) else old(current.pump2Status)) != status
                    then [Row(current, now)] else [])
      ensures pushed == old(pushed)
    {
      hide Holds, Final, Snapshots, CommandChanges, Statuses;
      OneMore(ZERO, calls, Feedback(pump, reported));
      calls := calls + [Feedback(pump, reported)];
      var status := reported;
      if status < 0 || status > 3 {
        status := STATUS_UNKNOWN;
      }
      var previousStatus := if pump == 1 then previous.pump1Status else previous.pump2Status;
      if pump == 1 {
        current := current.(pump1Status := status);
      } else if pump == 2 {
        current := current.(pump2Status := status);
      }
      timestamp := now;
      if previousStatus != status {
        InsertSnapshot(Row(current, timestamp));
        if pump == 1 {
          previous := previous.(pump1Status := status);
        } else if pump == 2 {
          previous := previous.(pump2Status := status);
        }
      }
    }

    method UpdateSystemStatus(busy: int, alarm: int, now: int)
      requires Valid()
      modifies this
      ensures Valid() && calls == old(calls) + [System(busy, alarm)] && timestamp == now
      ensures current == old(current).(busy := busy, alarm := alarm)
      ensures snapshots == old(snapshots) + (if current != old(current) then [Row(current, now)] else [])
      ensures pushed == old(pushed)
    {
      hide Holds, Final, Snapshots, CommandChanges, Statuses;
      OneMore(ZERO, calls, System(busy, alarm));
      calls := calls + [System(busy, alarm)];
      var busyChanged := previous.busy != busy;
      var alarmChanged := previous.alarm != alarm;
      current := current.(busy := busy, alarm := alarm);
      timestamp := now;
      if busyChanged || alarmChanged {
        InsertSnapshot(Row(current, timestamp));
        previous := previous.(busy := busy, alarm := alarm);
      }
    }
  }

  lemma OneStatus(r: Row)
    ensures Statuses([r]) == [r.status]
  {
  }
}
