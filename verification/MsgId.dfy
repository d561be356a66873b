/** Message ids: MQTTProtocol_assignMsgId and MQTTAsync_assignMsgId. */
module MsgId {

  const MAX_MSG_ID := 65535

  predicate IsId(i: int) {
    1 <= i <= MAX_MSG_ID
  }

  function Succ(i: int): int {
    if i == MAX_MSG_ID then 1 else i + 1
  }

  /** The k-th id cyclically after `last`; `last` is 0 before the first assignment. */
  function After(last: int, k: nat): int {
    (last - 1 + k) % MAX_MSG_ID + 1
  }

  /** The search itself, resumed at its k-th candidate. */
  function AssignFrom(last: int, used: set<int>, k: nat): int
    requires 1 <= k <= MAX_MSG_ID
    decreases MAX_MSG_ID - k
  {
    var c := After(last, k);
    if c == last then 0
    else if c !in used then c
    else if k == MAX_MSG_ID then 0
    else AssignFrom(last, used, k + 1)
  }

  function Assign(last: int, used: set<int>): int {
    AssignFrom(last, used, 1)
  }

  lemma AfterSucc(last: int, k: nat)
    requires 0 <= last <= MAX_MSG_ID && 1 <= k
    ensures After(last, k + 1) == Succ(After(last, k))
    ensures IsId(After(last, k))
  {
  }

  /** Every id is reached, and each only once, within one lap. */
  lemma AfterDistance(last: int, id: int) returns (k: nat)
    requires 0 <= last <= MAX_MSG_ID && IsId(id)
    ensures 1 <= k <= MAX_MSG_ID && After(last, k) == id
  {
    k := if id > last then id - last else id - last + MAX_MSG_ID;
  }

  lemma {:induction false} AssignFromSpec(last: int, used: set<int>, k: nat) returns (n: nat)
    requires 0 <= last <= MAX_MSG_ID && 1 <= k <= MAX_MSG_ID
    ensures k <= n <= MAX_MSG_ID
    ensures forall j :: k <= j < n ==> After(last, j) in used
    ensures var r := AssignFrom(last, used, k);
            if r != 0 then r == After(last, n) && r != last && r !in used
            else n == MAX_MSG_ID && (After(last, n) == last || After(last, n) in used)
    decreases MAX_MSG_ID - k
  {
    var c := After(last, k);
    if c == last {
      assert last >= 1;
      assert k == MAX_MSG_ID;
      n := k;
    } else if c !in used || k == MAX_MSG_ID {
      n := k;
    } else {
      n := AssignFromSpec(last, used, k + 1);
    }
  }

  /** The candidates before the n-th are all in use. */
  ghost predicate AllUsed(last: int, used: set<int>, n: nat) {
    forall j :: 1 <= j < n ==> After(last, j) in used
  }

  /** The id handed out is the first free one cyclically after the last; 0 means none but possibly the last is free. */
  lemma AssignSpec(last: int, used: set<int>)
    requires 0 <= last <= MAX_MSG_ID
    ensures var r := Assign(last, used);
            && (r != 0 ==> IsId(r) && r != last && r !in used)
            && (r != 0 ==> exists n :: 1 <= n <= MAX_MSG_ID && After(last, n) == r && AllUsed(last, used, n))
            && (r == 0 <==> forall i :: IsId(i) && i != last ==> i in used)
  {
    var n := AssignFromSpec(last, used, 1);
    var r := Assign(last, used);
    if r != 0 {
      AfterSucc(last, n);
      assert AllUsed(last, used, n);
    } else {
      forall i | IsId(i) && i != last ensures i in used {
        var k := AfterDistance(last, i);
        assert After(last, k) in used;
      }
    }
  }

  /** The loop of assignMsgId. The caller must rule out the one input on which the loop never ends
      (see NeverEnds): nothing assigned yet and every id in use. */
  method AssignMsgId(last: int, used: set<int>) returns (msgid: int)
    requires 0 <= last <= MAX_MSG_ID
    requires last != 0 || exists i :: IsId(i) && i !in used
    ensures msgid == Assign(last, used)
  {
    var start := last;
    msgid := Succ(last);
    var k: nat := 1;
    ghost var bound := AssignFromSpec(last, used, 1);
    while msgid in used
      invariant 1 <= k <= MAX_MSG_ID && msgid == After(last, k) && msgid != last
      invariant AssignFrom(last, used, k) == Assign(last, used)
      invariant forall j :: 1 <= j < k ==> After(last, j) in used
      decreases MAX_MSG_ID - k
    {
      AfterSucc(last, k);
      if k == MAX_MSG_ID {
        assert last == 0;
        var i :| IsId(i) && i !in used;
        var d := AfterDistance(last, i);
        assert false;
      }
      msgid := Succ(msgid);
      if msgid == start {
        msgid := 0;
        return;
      }
      k := k + 1;
    }
  }

  /** With nothing assigned yet and every id in use, each pass of the loop finds its candidate
      in use and different from the start, so neither exit is ever taken. */
  lemma NeverEnds(used: set<int>, k: nat)
    requires forall i :: IsId(i) ==> i in used
    requires 1 <= k
    ensures After(0, k) in used && After(0, k + 1) == Succ(After(0, k)) && Succ(After(0, k)) != 0
  {
    AfterSucc(0, k);
  }
}
