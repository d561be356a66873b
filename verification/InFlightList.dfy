/** Code that works on LinkedList.List from outside: insertInOrder and wrapMsgID of MQTTPersistence.c, and
    MQTTProtocol_checkPendingWrites, which deletes while it iterates through the list's own cursor. */
module InFlightList {
  import opened MsgId
  import opened Session
  import Recovery
  import opened LinkedList
  import opened Sequences

  /** The search loop of insertInOrder. */
  method InsertionIndex(list: List<Message>, id: int) returns (index: Element?<Message>, ghost k: nat)
    requires list.Valid()
    ensures k == Recovery.InsertPoint(list.Contents(), id)
    ensures index == if k < |list.nodes| then list.nodes[k] else null
  {
    hide Distinct, ContentsOf, Recovery.InsertPoint;
    index := null;
    var cur := list.NextElement(null, 0);
    k := 0;
    while cur != null && index == null
      invariant 0 <= k <= |list.nodes|
      invariant index == null ==> cur == if k < |list.nodes| then list.nodes[k] else null
      invariant index != null ==> k < |list.nodes| && index == list.nodes[k] && id < index.content.msgid
      invariant forall j :: 0 <= j < k ==> list.nodes[j].content.msgid <= id
      decreases |list.nodes| - k, index == null
    {
      var here := cur;
      cur := list.NextElement(cur, k);
      if id < here.content.msgid {
        index := here;
      } else {
        k := k + 1;
      }
    }
    PointIs(list.Contents(), id, k);
  }

  /** MQTTPersistence_insertInOrder. */
  method InsertInOrder(list: List<Message>, m: Message)
    requires list.Valid()
    modifies list, list.nodes
    ensures list.Valid() && list.Contents() == Recovery.InsertInOrder(old(list.Contents()), m)
  {
    hide Distinct, Linked, ContentsOf, Recovery.InsertPoint;
    var index, k := InsertionIndex(list, m.msgid);
    var e := list.Insert(m, index, k);
  }

  lemma {:induction false} PointIs(ms: seq<Message>, id: int, k: nat)
    requires k <= |ms| && (k < |ms| ==> id < ms[k].msgid) && forall j :: 0 <= j < k ==> ms[j].msgid <= id
    ensures Recovery.InsertPoint(ms, id) == k
  {
    if k > 0 {
      assert ms[0].msgid <= id;
      PointIs(ms[1..], id, k - 1);
    }
  }

  /** The scan of wrapMsgID: the first element behind the widest gap, null while that gap is the one that closes
      the circle. */
  method WrapElement(list: List<Message>) returns (wrapel: Element?<Message>, ghost w: nat)
    requires list.Valid()
    ensures w == WrapPoint(list.Contents()) && w <= |list.nodes|
    ensures if w > 0 then w < |list.nodes| && wrapel == list.nodes[w] else wrapel == null
  {
    hide Distinct, ContentsOf, Linked, Recovery.WidestGap;
    wrapel := null;
    w := 0;
    if list.count > 0 {
      ghost var ms := list.Contents();
      var firstMsgID := list.first.content.msgid;
      var lastMsgID := list.last.content.msgid;
      var gap := MAX_MSG_ID - lastMsgID + firstMsgID;
      var cur := list.NextElement(null, 0);
      cur := list.NextElement(cur, 0);
      ghost var k := 1;
      WidestStep(ms, 0);
      while cur != null
        invariant 1 <= k <= |list.nodes| && cur == if k < |list.nodes| then list.nodes[k] else null
        invariant w == Recovery.WidestGap(ms, k - 1) && gap == Recovery.Gap(ms, w)
        invariant wrapel == if w > 0 then list.nodes[w] else null
        decreases |list.nodes| - k
      {
        list.Links(k);
        WidestStep(ms, k);
        var curMsgID := cur.content.msgid;
        var curPrevMsgID := cur.prev.content.msgid;
        var curgap := curMsgID - curPrevMsgID;
        if curgap > gap {
          gap := curgap;
          wrapel := cur;
          w := k;
        }
        cur := list.NextElement(cur, k);
        k := k + 1;
      }
    }
  }

  ghost function WrapPoint(ms: seq<Message>): nat {
    if ms == [] then 0 else Recovery.WidestGap(ms, |ms| - 1)
  }

  lemma WrapIs(ms: seq<Message>)
    ensures var w := WrapPoint(ms);
            w <= |ms| && Recovery.Wrap(ms) == ms[w..] + ms[..w] && (w == 0 ==> Recovery.Wrap(ms) == ms)
  {
    hide Recovery.WidestGap;
    assert ms[0..] + ms[..0] == ms;
  }

  lemma WidestStep(ms: seq<Message>, i: nat)
    requires i < |ms|
    ensures Recovery.WidestGap(ms, i) ==
              if i == 0 then 0
              else if Recovery.Gap(ms, i) > Recovery.Gap(ms, Recovery.WidestGap(ms, i - 1)) then i
              else Recovery.WidestGap(ms, i - 1)
  {
  }

  /** MQTTPersistence_wrapMsgID. */
  method WrapMsgID(list: List<Message>)
    requires list.Valid()
    modifies list, list.nodes
    ensures list.Valid() && list.Contents() == Recovery.Wrap(old(list.Contents()))
  {
    hide Distinct, Linked, ContentsOf, WrapPoint, Recovery.Wrap;
    var wrapel, w := WrapElement(list);
    WrapIs(list.Contents());
    if wrapel != null {
      list.RotateTo(wrapel, w);
    }
  }

  /** What stays. */
  function Keep<T>(s: seq<T>, done: T -> bool): seq<T> {
    if s == [] then [] else (if done(s[0]) then [] else [s[0]]) + Keep(s[1..], done)
  }

  lemma {:induction false} KeepNone<T>(s: seq<T>, done: T -> bool)
    requires forall i :: 0 <= i < |s| ==> !done(s[i])
    ensures Keep(s, done) == s
  {
    if s != [] { KeepNone(s[1..], done); }
  }

  lemma {:induction false} KeepWithout<T>(s: seq<T>, k: nat, done: T -> bool)
    requires k < |s| && done(s[k])
    ensures Keep(Without(s, k), done) == Keep(s, done)
  {
    if k == 0 {
      assert Without(s, 0) == s[1..];
    } else {
      assert Without(s, k)[1..] == Without(s[1..], k - 1);
      KeepWithout(s[1..], k - 1, done);
    }
  }

  /** MQTTProtocol_checkPendingWrites; `done` says that the entry's socket has no pending writes any more. */
  method CheckPendingWrites<T(==)>(list: List<T>, done: T -> bool)
    requires list.Valid()
    modifies list, list.nodes
    ensures list.Valid() && list.Contents() == Keep(old(list.Contents()), done)
    ensures forall e :: e in list.nodes ==> e in old(list.nodes) && e.content == old(e.content)
  {
    hide Distinct, Linked, ContentsOf, Keep, FirstMatch, Without;
    if list.count > 0 {
      var le := list.first;
      ghost var k := 0;
      ghost var all := list.Contents();
      while le != null
        invariant list.Valid() && k <= |list.nodes| && le == if k < |list.nodes| then list.nodes[k] else null
        invariant Keep(list.Contents(), done) == Keep(all, done)
        invariant forall j :: 0 <= j < k ==> !done(list.Contents()[j])
        invariant forall e :: e in list.nodes ==> e in old(list.nodes) && e.content == old(e.content)
        decreases |list.nodes| - k
      {
        if done(le.content) {
          RemoveThere(list, le, done, k);
          le := list.current;
        } else {
          le := list.NextElement(le, k);
          k := k + 1;
        }
      }
    }
    KeepNone(list.Contents(), done);
  }

  /** Put the cursor on the element, then remove it by its content. */
  method RemoveThere<T(==)>(list: List<T>, le: Element<T>, ghost done: T -> bool, ghost k: nat)
    requires list.Valid() && k < |list.nodes| && le == list.nodes[k] && done(le.content)
    modifies list, list.nodes
    ensures list.Valid() && |list.nodes| == |old(list.nodes)| - 1
    ensures list.current == if k < |list.nodes| then list.nodes[k] else null
    ensures Keep(list.Contents(), done) == Keep(old(list.Contents()), done)
    ensures forall j :: 0 <= j < k ==> list.Contents()[j] == old(list.Contents())[j]
    ensures forall e :: e in list.nodes ==> e in old(list.nodes) && e.content == old(e.content)
  {
    hide ContentsOf, Linked, Keep;
    var content := le.content;
    list.current := le;
    var removed, i := list.Unlink(x => x == content);
    assert i == k;
    KeepWithout(old(list.Contents()), k, done);
  }
}
