/** Rebuilding the in-flight lists from the persistent store (MQTTPersistence.c), on values:
    restorePackets, insertInOrder and wrapMsgID. */
module Recovery {
  import opened MsgId
  import opened Session

  // ---- order of the outbound list

  ghost predicate Sorted(ms: seq<Message>) {
    forall i, j :: 0 <= i < j < |ms| ==> ms[i].msgid < ms[j].msgid
  }

  /** Where insertInOrder puts a message: before the first with a larger id. */
  function InsertPoint(ms: seq<Message>, id: int): (k: nat)
    ensures k <= |ms| && (k < |ms| ==> id < ms[k].msgid)
    ensures forall j :: 0 <= j < k ==> ms[j].msgid <= id
  {
    if ms == [] then 0 else if id < ms[0].msgid then 0 else 1 + InsertPoint(ms[1..], id)
  }

  function InsertInOrder(ms: seq<Message>, m: Message): seq<Message> {
    var k := InsertPoint(ms, m.msgid);
    ms[..k] + [m] + ms[k..]
  }

  /** The gap before position i, the list being closed into a circle over the end of the id space. */
  function Gap(ms: seq<Message>, i: nat): int
    requires i < |ms|
  {
    if i == 0 then MAX_MSG_ID - ms[|ms| - 1].msgid + ms[0].msgid else ms[i].msgid - ms[i - 1].msgid
  }

  /** The scan of wrapMsgID over positions 0..i: the first position with the largest gap. */
  function WidestGap(ms: seq<Message>, i: nat): (w: nat)
    requires i < |ms|
    ensures w <= i
    ensures forall j :: 0 <= j <= i ==> Gap(ms, j) <= Gap(ms, w)
    ensures forall j :: 0 <= j < w ==> Gap(ms, j) < Gap(ms, w)
  {
    if i == 0 then 0
    else
      var w := WidestGap(ms, i - 1);
      if Gap(ms, i) > Gap(ms, w) then i else w
  }

  function Rotate<T>(s: seq<T>, k: nat): seq<T>
    requires k <= |s|
  {
    s[k..] + s[..k]
  }

  function Wrap(ms: seq<Message>): seq<Message> {
    if ms == [] then ms else Rotate(ms, WidestGap(ms, |ms| - 1))
  }

  lemma InsertKeepsSorted(ms: seq<Message>, m: Message)
    requires Sorted(ms) && m.msgid !in Ids(ms)
    ensures Sorted(InsertInOrder(ms, m))
    ensures forall x :: x in InsertInOrder(ms, m) <==> x in ms || x == m
  {
    var k := InsertPoint(ms, m.msgid);
    forall j | 0 <= j < k ensures ms[j].msgid < m.msgid {
      assert ms[j].msgid in Ids(ms);
    }
    SplicedSorted(ms, m, k, InsertInOrder(ms, m));
    SplicedMembers(ms, m, k);
  }

  lemma SplicedSorted(ms: seq<Message>, m: Message, k: nat, r: seq<Message>)
    requires Sorted(ms) && k <= |ms| && |r| == |ms| + 1
    requires forall i :: 0 <= i < k ==> r[i] == ms[i]
    requires r[k] == m
    requires forall i :: k < i < |r| ==> r[i] == ms[i - 1]
    requires forall j :: 0 <= j < k ==> ms[j].msgid < m.msgid
    requires k < |ms| ==> m.msgid < ms[k].msgid
    ensures Sorted(r)
  {
    forall i, j | 0 <= i < j < |r| ensures r[i].msgid < r[j].msgid {
      if i < k < j {
        assert r[i] == ms[i] && r[j] == ms[j - 1];
      } else if j == k {
        assert r[i] == ms[i];
      } else if i == k {
        assert r[j] == ms[j - 1] && (j == k + 1 || ms[k].msgid < ms[j - 1].msgid);
      } else if k < i {
        assert r[i] == ms[i - 1] && r[j] == ms[j - 1];
      }
    }
  }

  lemma SplicedMembers(ms: seq<Message>, m: Message, k: nat)
    requires k <= |ms|
    ensures forall x :: x in ms[..k] + [m] + ms[k..] <==> x in ms || x == m
  {
    assert ms == ms[..k] + ms[k..];
  }

  lemma RotatedDistinct(ms: seq<Message>, k: nat)
    requires DistinctIds(ms) && k <= |ms|
    ensures DistinctIds(Rotate(ms, k))
  {
    var r := Rotate(ms, k);
    forall i, j | 0 <= i < j < |r| ensures r[i].msgid != r[j].msgid {
      var p, q := if i < |ms| - k then k + i else i - (|ms| - k), if j < |ms| - k then k + j else j - (|ms| - k);
      assert r[i] == ms[p] && r[j] == ms[q] && p != q;
    }
  }

  lemma WrapMembers(ms: seq<Message>)
    requires DistinctIds(ms)
    ensures DistinctIds(Wrap(ms)) && forall x :: x in Wrap(ms) <==> x in ms
  {
    if ms != [] {
      var k := WidestGap(ms, |ms| - 1);
      hide WidestGap, Rotate;
      RotatedDistinct(ms, k);
      RotatedMembers(ms, k);
    }
  }

  lemma {:induction false} SortedUnique(a: seq<Message>, b: seq<Message>)
    requires Sorted(a) && Sorted(b) && forall x :: x in a <==> x in b
    ensures a == b
  {
    if a == [] {
      if b != [] { HasMember(b); }
    } else {
      HasMember(a);
      assert a[0] in b && b[0] in a;
      var i :| 0 <= i < |b| && b[i] == a[0];
      var j :| 0 <= j < |a| && a[j] == b[0];
      assert i == 0;
      forall x ensures x in a[1..] <==> x in b[1..] {
        TailMember(a, x);
        TailMember(b, x);
      }
      SortedUnique(a[1..], b[1..]);
    }
  }

  lemma HasMember(a: seq<Message>)
    requires a != []
    ensures exists x :: x in a
  {
    assert a[0] in a;
  }

  lemma TailMember(a: seq<Message>, x: Message)
    requires Sorted(a) && a != []
    ensures x in a[1..] <==> x in a && x != a[0]
  {
    assert a == [a[0]] + a[1..];
  }

  // ---- send order

  /** How far id b lies after id a, going upwards and around the end of the id space. */
  function Dist(a: int, b: int): int {
    if b > a then b - a else b - a + MAX_MSG_ID
  }

  /** Ids in use, in send order, that have gone upwards by less than one lap. */
  ghost predicate CyclicUp(s: seq<Message>) {
    && (forall m :: m in s ==> IsId(m.msgid))
    && DistinctIds(s)
    && forall i, j :: 0 < i < j < |s| ==> Dist(s[0].msgid, s[i].msgid) < Dist(s[0].msgid, s[j].msgid)
  }

  /** The step from position i-1 to position i in send order. */
  function Inner(s: seq<Message>, i: nat): int
    requires 1 <= i < |s|
  {
    Dist(s[i - 1].msgid, s[i].msgid)
  }

  /** From the newest message back around to the oldest. */
  function Closing(s: seq<Message>): int
    requires s != []
  {
    Dist(s[|s| - 1].msgid, s[0].msgid)
  }

  /** The step before position i does not beat the closing one; on a tie the smaller id wins. */
  predicate Beaten(s: seq<Message>, i: nat)
    requires 1 <= i < |s|
  {
    Inner(s, i) < Closing(s) || (Inner(s, i) == Closing(s) && s[i].msgid > s[0].msgid)
  }

  /** Where send order passes the end of the id space. */
  lemma LapPoint(s: seq<Message>) returns (k: nat)
    requires s != [] && CyclicUp(s)
    ensures 1 <= k <= |s|
    ensures forall i :: 0 <= i < k ==> s[i].msgid >= s[0].msgid
    ensures forall i :: k <= i < |s| ==> s[i].msgid < s[0].msgid
    ensures Sorted(Rotate(s, k))
  {
    k := 1;
    while k < |s| && s[k].msgid > s[0].msgid
      invariant 1 <= k <= |s| && forall i :: 0 <= i < k ==> s[i].msgid >= s[0].msgid
    {
      k := k + 1;
    }
    forall i | k <= i < |s| ensures s[i].msgid < s[0].msgid {
      assert IsId(s[k].msgid) && IsId(s[i].msgid) && s[i].msgid != s[0].msgid;
      if k < i {
        assert Dist(s[0].msgid, s[k].msgid) < Dist(s[0].msgid, s[i].msgid);
      }
    }
    LapSorted(s, k);
  }

  lemma LapSorted(s: seq<Message>, k: nat)
    requires s != [] && CyclicUp(s) && 1 <= k <= |s|
    requires forall i :: 0 <= i < k ==> s[i].msgid >= s[0].msgid
    requires forall i :: k <= i < |s| ==> s[i].msgid < s[0].msgid
    ensures Sorted(Rotate(s, k))
  {
    forall i, j | 0 <= i < j < |s| && (j < k || k <= i) ensures s[i].msgid < s[j].msgid {
      assert IsId(s[i].msgid) && IsId(s[j].msgid);
    }
  }

  /** `ms` is `s` with its first k elements moved behind the others. */
  ghost predicate Shifted(s: seq<Message>, k: nat, ms: seq<Message>) {
    k <= |s| && |ms| == |s| && forall i :: 0 <= i < |s| ==> ms[i] == s[if i < |s| - k then k + i else i - (|s| - k)]
  }

  /** The gaps of the sorted list are the steps of the send order, shifted by the lap point. */
  lemma GapsAreSteps(s: seq<Message>, k: nat, ms: seq<Message>, j: nat)
    requires CyclicUp(s) && 1 <= k <= |s| && j < |s| && Shifted(s, k, ms) && Sorted(ms)
    requires forall i :: k <= i < |s| ==> s[i].msgid < s[0].msgid
    requires forall i :: 0 <= i < k ==> s[i].msgid >= s[0].msgid
    ensures var p := |s| - k;
            Gap(ms, j) == if j == p then Closing(s) else Inner(s, if j < p then k + j else j - p)
  {
    assert forall i :: 0 <= i < |s| ==> IsId(s[i].msgid);
    if j > 0 {
      assert ms[j - 1].msgid < ms[j].msgid;
    } else {
      assert |s| > 1 ==> ms[0].msgid < ms[|s| - 1].msgid;
    }
  }

  /** Of the rotations of a list without repeated ids only one starts with a given element. */
  lemma RotationStart(s: seq<Message>, k: nat, ms: seq<Message>, w: nat)
    requires DistinctIds(ms) && 1 <= k <= |s| && Shifted(s, k, ms) && w < |s|
    ensures Rotate(ms, w) == s <==> w == if k == |s| then 0 else |s| - k
  {
    var p := if k == |s| then 0 else |s| - k;
    assert Rotate(ms, p) == s;
    if w != p {
      assert Rotate(ms, w)[0] == ms[w] && s[0] == ms[p];
    }
  }

  ghost predicate Steps(s: seq<Message>, k: nat, ms: seq<Message>) {
    && 1 <= k <= |s| && Shifted(s, k, ms)
    && forall j :: 0 <= j < |s| ==>
         Gap(ms, j) == if j == |s| - k then Closing(s) else Inner(s, if j < |s| - k then k + j else j - (|s| - k))
  }

  ghost predicate Widest(ms: seq<Message>, w: nat) {
    && w < |ms|
    && (forall j :: 0 <= j < |ms| ==> Gap(ms, j) <= Gap(ms, w))
    && forall j :: 0 <= j < w ==> Gap(ms, j) < Gap(ms, w)
  }

  /** The place where send order starts is the widest gap exactly when no step beats the closing one. */
  lemma ClosingWins(s: seq<Message>, k: nat, ms: seq<Message>, p: nat, i: nat)
    requires Steps(s, k, ms) && Sorted(ms) && Widest(ms, p)
    requires p == if k == |s| then 0 else |s| - k
    requires 1 <= i < |s|
    ensures Beaten(s, i)
  {
    var j := if i < k then i + (|s| - k) else i - k;
    assert Gap(ms, j) == Inner(s, i) && Gap(ms, p) == Closing(s);
    assert ms[j] == s[i] && ms[p] == s[0];
    assert p < j ==> ms[p].msgid < ms[j].msgid;
  }

  lemma ClosingLoses(s: seq<Message>, k: nat, ms: seq<Message>, p: nat, w: nat) returns (i: nat)
    requires Steps(s, k, ms) && Sorted(ms) && Widest(ms, w)
    requires p == (if k == |s| then 0 else |s| - k) && w != p
    ensures 1 <= i < |s| && !Beaten(s, i)
  {
    i := if w < |s| - k then k + w else w - (|s| - k);
    assert Gap(ms, w) == Inner(s, i) && Gap(ms, p) == Closing(s);
    assert ms[w] == s[i] && ms[p] == s[0];
    assert w < p ==> ms[w].msgid < ms[p].msgid;
  }

  /** No step beats the closing one. */
  ghost predicate AllBeaten(s: seq<Message>) {
    forall i :: 1 <= i < |s| ==> Beaten(s, i)
  }

  /** Ids as they are assigned, no two alike. */
  ghost predicate IdList(s: seq<Message>) {
    DistinctIds(s) && forall i :: 0 <= i < |s| ==> IsId(s[i].msgid)
  }

  /** A rotation of a sorted list goes upwards by less than one lap. */
  lemma RotationGoesUp(sorted: seq<Message>, w: nat)
    requires Sorted(sorted) && w <= |sorted| && IdList(Rotate(sorted, w))
    ensures CyclicUp(Rotate(sorted, w))
  {
    var s := Rotate(sorted, w);
    forall i, j | 0 < i < j < |s| ensures Dist(s[0].msgid, s[i].msgid) < Dist(s[0].msgid, s[j].msgid) {
      assert IsId(s[0].msgid) && IsId(s[i].msgid) && IsId(s[j].msgid);
    }
  }

  /** Recovery gives back the send order exactly when it goes upwards by less than one lap and no step between
      consecutive messages is wider than the one that closes the circle, ties going to the smaller id. */
  lemma RecoversSendOrder(s: seq<Message>, sorted: seq<Message>)
    requires IdList(s) && Sorted(sorted) && forall x :: x in sorted <==> x in s
    ensures Wrap(sorted) == s <==> CyclicUp(s) && AllBeaten(s)
  {
    if s == [] {
      if sorted != [] { HasMember(sorted); }
    } else {
      HasMember(s);
      var w := WrapSpec(sorted);
      if Wrap(sorted) == s {
        RotationGoesUp(sorted, w);
      }
      if CyclicUp(s) {
        var k := SortedIsShifted(s, sorted);
        RecoversIff(s, k, sorted, w);
      }
    }
  }

  function Plain(id: int): Message {
    Message(id, 1, false, Unset, NoContent)
  }

  /** An order that is lost: id 1 is still in flight when the ids come round again, so that 2 follows 65535. */
  lemma OvertakenOrderLost()
    ensures MsgId.Assign(65535, {1, 65535}) == 2
    ensures var s, sorted := [Plain(1), Plain(65535), Plain(2)], [Plain(1), Plain(2), Plain(65535)];
            IdList(s) && Sorted(sorted) && (forall x :: x in sorted <==> x in s) && !CyclicUp(s) && Wrap(sorted) != s
  {
    var s, sorted := [Plain(1), Plain(65535), Plain(2)], [Plain(1), Plain(2), Plain(65535)];
    hide Wrap;
    assert MsgId.Assign(65535, {1, 65535}) == 2 by {
      assert After(65535, 1) == 1 && After(65535, 2) == 2;
    }
    hide AssignFrom, Assign, After;
    assert Dist(s[0].msgid, s[1].msgid) == 65534 && Dist(s[0].msgid, s[2].msgid) == 1;
    assert !CyclicUp(s);
    RecoversSendOrder(s, sorted);
  }

  lemma SortedIsShifted(s: seq<Message>, sorted: seq<Message>) returns (k: nat)
    requires s != [] && CyclicUp(s) && Sorted(sorted) && forall x :: x in sorted <==> x in s
    ensures Steps(s, k, sorted) && DistinctIds(sorted)
  {
    k := LapPoint(s);
    RotatedMembers(s, k);
    SortedUnique(sorted, Rotate(s, k));
    AllSteps(s, k, sorted);
  }

  lemma WrapSpec(ms: seq<Message>) returns (w: nat)
    requires ms != []
    ensures Widest(ms, w) && Wrap(ms) == Rotate(ms, w)
  {
    w := WidestGap(ms, |ms| - 1);
  }

  lemma AllSteps(s: seq<Message>, k: nat, ms: seq<Message>)
    requires CyclicUp(s) && 1 <= k <= |s| && Shifted(s, k, ms) && Sorted(ms)
    requires forall i :: k <= i < |s| ==> s[i].msgid < s[0].msgid
    requires forall i :: 0 <= i < k ==> s[i].msgid >= s[0].msgid
    ensures Steps(s, k, ms) && DistinctIds(ms)
  {
    forall j | 0 <= j < |s|
      ensures Gap(ms, j) == if j == |s| - k then Closing(s) else Inner(s, if j < |s| - k then k + j else j - (|s| - k))
    {
      GapsAreSteps(s, k, ms, j);
    }
  }

  lemma RecoversIff(s: seq<Message>, k: nat, ms: seq<Message>, w: nat)
    requires s != [] && Steps(s, k, ms) && Sorted(ms) && DistinctIds(ms)
    requires Widest(ms, w)
    ensures Rotate(ms, w) == s <==> AllBeaten(s)
  {
    var p := if k == |s| then 0 else |s| - k;
    RotationStart(s, k, ms, w);
    if w == p {
      forall i | 1 <= i < |s| ensures Beaten(s, i) {
        ClosingWins(s, k, ms, p, i);
      }
    } else {
      var i := ClosingLoses(s, k, ms, p, w);
    }
  }

  lemma RotatedMembers(s: seq<Message>, k: nat)
    requires k <= |s|
    ensures Shifted(s, k, Rotate(s, k))
    ensures forall x :: x in Rotate(s, k) <==> x in s
  {
    assert s == s[..k] + s[k..];
  }

  lemma NarrowSteps(s: seq<Message>, i: nat)
    requires CyclicUp(s) && 1 <= i < |s| && Dist(s[0].msgid, s[|s| - 1].msgid) <= MAX_MSG_ID / 2
    ensures Beaten(s, i)
  {
    assert IsId(s[0].msgid) && IsId(s[i].msgid) && IsId(s[i - 1].msgid) && IsId(s[|s| - 1].msgid);
    assert s[0].msgid != s[i].msgid && s[0].msgid != s[|s| - 1].msgid;
    assert i < |s| - 1 ==> Dist(s[0].msgid, s[i].msgid) < Dist(s[0].msgid, s[|s| - 1].msgid);
    assert i > 1 ==> Dist(s[0].msgid, s[i - 1].msgid) < Dist(s[0].msgid, s[i].msgid);
  }

  /** In particular when the outstanding ids span at most half of the id space. */
  lemma HalfWindowRecovers(s: seq<Message>, sorted: seq<Message>)
    requires CyclicUp(s) && Sorted(sorted) && forall x :: x in sorted <==> x in s
    requires s != [] ==> Dist(s[0].msgid, s[|s| - 1].msgid) <= MAX_MSG_ID / 2 || |s| == 1
    ensures Wrap(sorted) == s
  {
    assert IdList(s);
    hide Wrap, Beaten, CyclicUp, Sorted, IdList, Dist;
    forall i | 1 <= i < |s| ensures Beaten(s, i) {
      NarrowSteps(s, i);
    }
    RecoversSendOrder(s, sorted);
  }

  // ---- restorePackets

  datatype Restored = Restored(outbound: seq<Message>, inbound: seq<Message>, store: Store, ok: bool)

  /** The handshake state a restored outbound message is given. */
  function RestoredNext(store: Store, v5: bool, id: int, qos: int): Next {
    if Key(SentRel, v5, id) in store then PubComp else if qos == 2 then PubRec else Unset
  }

  /** One pass of the loop over the keys. `v5` is the version of the client, not of the record. */
  function RestoreKey(r: Restored, v5: bool, key: Key): Restored
    requires key in r.store
  {
    if key.v5 && !v5 then r.(ok := false)  // version 5 data, version 3 client
    else
      match (key.kind, r.store[key])
      case (Received, Publish(_, qos, retain, id, c)) =>
        r.(inbound := r.inbound + [Message(id, qos, retain, PubRel, if v5 then NoContent else c)])
      case (Sent, Publish(_, qos, retain, id, c)) =>
        r.(outbound := InsertInOrder(r.outbound, Message(id, qos, retain, RestoredNext(r.store, v5, id, qos), c)))
      case (SentRel, Pubrel(id)) =>
        if Key(Sent, v5, id) in r.store then r else r.(store := r.store - {key})
      case (_, Unparsed) => r.(store := r.store - {key})
      case _ => r
  }

  ghost predicate Listing(keys: seq<Key>, store: Store) {
    && (forall i :: 0 <= i < |keys| ==> keys[i] in store)
    && forall i, j :: 0 <= i < j < |keys| ==> keys[i] != keys[j]
  }

  lemma NextListing(r: Restored, v5: bool, keys: seq<Key>)
    requires keys != [] && Listing(keys, r.store)
    ensures Listing(keys[1..], RestoreKey(r, v5, keys[0]).store)
  {
    assert forall i :: 1 <= i < |keys| ==> keys[i] in r.store && keys[i] != keys[0];
  }

  function RestoreKeys(r: Restored, v5: bool, keys: seq<Key>): Restored
    requires Listing(keys, r.store)
    decreases |keys|
  {
    if keys == [] || !r.ok then r
    else
      NextListing(r, v5, keys);
      RestoreKeys(RestoreKey(r, v5, keys[0]), v5, keys[1..])
  }

  /** MQTTPersistence_restorePackets for a client that starts with empty lists. */
  function RestorePackets(store: Store, v5: bool, keys: seq<Key>): Restored
    requires Listing(keys, store)
  {
    var r := RestoreKeys(Restored([], [], store, true), v5, keys);
    if r.ok then r.(outbound := Wrap(r.outbound)) else r
  }

  /** A 3.1.1 client gives up at the first version 5 record, and only then; it takes none of those out of the store,
      and nothing is ever put in. */
  lemma {:induction false} VersionRefused(r: Restored, v5: bool, keys: seq<Key>)
    requires Listing(keys, r.store) && r.ok
    ensures var t := RestoreKeys(r, v5, keys);
            && (t.ok <==> v5 || forall i :: 0 <= i < |keys| ==> !keys[i].v5)
            && (forall k :: k in t.store ==> k in r.store && t.store[k] == r.store[k])
            && (!v5 ==> forall k :: k in r.store && k.v5 ==> k in t.store)
    decreases |keys|
  {
    if keys != [] {
      var t := RestoreKey(r, v5, keys[0]);
      NextListing(r, v5, keys);
      assert t.ok <==> v5 || !keys[0].v5;
      assert forall k :: k in t.store ==> k in r.store && t.store[k] == r.store[k];
      assert !v5 ==> forall k :: k in r.store && k.v5 ==> k in t.store;
      hide RestoreKey;
      if t.ok {
        VersionRefused(t, v5, keys[1..]);
      }
    }
  }

  // ---- what the store must hold

  function Restate(store: Store, v5: bool, m: Message): Message {
    m.(next := RestoredNext(store, v5, m.msgid, m.qos))
  }

  /** Version 5 inbound messages have been delivered already and lose their content. */
  function Strip(v5: bool, m: Message): Message {
    if v5 then m.(body := NoContent) else m
  }

  /** The record under k is the PUBLISH of m; version 5 inbound messages no longer need the body. */
  ghost predicate RecordOf(store: Store, k: Key, m: Message) {
    k in store && store[k].Publish? &&
    var p := store[k];
    p.qos == m.qos && p.retain == m.retain && p.msgid == m.msgid &&
    ((k.kind == Received && k.v5) || m.body == p.content)
  }

  ghost predicate OutboundForm(m: Message) {
    (m.qos == 1 && m.next == Unset) || (m.qos == 2 && (m.next == PubRec || m.next == PubComp))
  }

  /** Every in-flight message has its record and there are no other records, except that a PUBREL
      record may be there for any id. */
  ghost predicate Recorded(v5: bool, out: seq<Message>, inb: seq<Message>, store: Store) {
    && (forall m :: m in out ==> OutboundForm(m) && RecordOf(store, Key(Sent, v5, m.msgid), m))
    && (forall m :: m in inb ==>
          m.qos == 2 && m.next == PubRel && RecordOf(store, Key(Received, v5, m.msgid), Strip(v5, m)))
    && (forall k :: k in store ==>
          && k.v5 == v5
          && (k.kind == Sent ==> k.id in Ids(out))
          && (k.kind == Received ==> k.id in Ids(inb))
          && (k.kind == SentRel ==> store[k] == Pubrel(k.id)))
  }

  /** The store mirrors the in-flight state: PUBREL records exactly for what awaits PUBCOMP. */
  ghost predicate Mirror(v5: bool, out: seq<Message>, inb: seq<Message>, store: Store) {
    && Recorded(v5, out, inb, store)
    && (forall m :: m in out ==> (m.next == PubComp <==> Key(SentRel, v5, m.msgid) in store))
    && forall k :: k in store && k.kind == SentRel ==> k.id in Ids(out)
  }

  // ---- records of either version

  /** The record of a message: a version 5 client also reads what it stored as a 3.1.1 client. */
  function KeyOf(store: Store, kind: Kind, v5: bool, id: int): Key {
    if Key(kind, v5, id) in store then Key(kind, v5, id) else Key(kind, false, id)
  }

  /** The record under k is the PUBLISH of m. */
  ghost predicate PublishOf(store: Store, k: Key, m: Message, bodyless: bool) {
    k in store && store[k].Publish? &&
    var p := store[k];
    p.qos == m.qos && p.retain == m.retain && p.msgid == m.msgid && (bodyless || m.body == p.content)
  }

  /** Every in-flight message has one record, of either version, and there are no other records, except that a PUBREL
      record may be there for any id; beside a message in flight one of the client's version only if the PUBLISH record
      is of that version too (see OrderOfKeysMatters). */
  ghost predicate Readable(v5: bool, out: seq<Message>, inb: seq<Message>, store: Store) {
    && (forall m :: m in out ==> OutboundForm(m) && PublishOf(store, KeyOf(store, Sent, v5, m.msgid), m, false))
    && (forall m :: m in inb ==>
          m.qos == 2 && m.next == PubRel && PublishOf(store, KeyOf(store, Received, v5, m.msgid), m, v5))
    && (forall k :: k in store ==>
          && (k.v5 ==> v5)
          && (k.kind == Sent ==> k.id in Ids(out) && k == KeyOf(store, Sent, v5, k.id))
          && (k.kind == Received ==> k.id in Ids(inb) && k == KeyOf(store, Received, v5, k.id))
          && (k.kind == SentRel ==> store[k] == Pubrel(k.id)))
    && forall m :: m in out && Key(SentRel, v5, m.msgid) in store ==> Key(Sent, v5, m.msgid) in store
  }

  lemma RecordedReadable(v5: bool, out: seq<Message>, inb: seq<Message>, store: Store)
    requires Recorded(v5, out, inb, store)
    ensures Readable(v5, out, inb, store)
  {
    forall m | m in out ensures PublishOf(store, KeyOf(store, Sent, v5, m.msgid), m, false) {
      assert RecordOf(store, Key(Sent, v5, m.msgid), m);
    }
    forall m | m in inb ensures PublishOf(store, KeyOf(store, Received, v5, m.msgid), m, v5) {
      assert RecordOf(store, Key(Received, v5, m.msgid), Strip(v5, m));
    }
    forall k | k in store && k.kind == Sent ensures k == KeyOf(store, Sent, v5, k.id) {
    }
  }

  /** x is what becomes of the outbound (inbound) message with its id. */
  ghost predicate OutBack(v5: bool, out: seq<Message>, store: Store, x: Message) {
    var f := Find(out, x.msgid);
    f.Some? && x == Restate(store, v5, f.m)
  }

  ghost predicate InBack(v5: bool, inb: seq<Message>, x: Message) {
    var f := Find(inb, x.msgid);
    f.Some? && x == Strip(v5, f.m)
  }

  /** A PUBREL record without a PUBLISH record of the client's own version. */
  predicate Orphan(store: Store, v5: bool, k: Key) {
    k.kind == SentRel && Key(Sent, v5, k.id) !in store
  }

  /** After some keys have been processed: their messages, and only theirs, are back. */
  ghost predicate Partway(r: Restored, v5: bool, out: seq<Message>, inb: seq<Message>, store: Store, done: set<Key>) {
    && r.ok && Sorted(r.outbound) && DistinctIds(r.inbound)
    && (forall x :: x in r.outbound <==> KeyOf(store, Sent, v5, x.msgid) in done && OutBack(v5, out, store, x))
    && (forall x :: x in r.inbound <==> KeyOf(store, Received, v5, x.msgid) in done && InBack(v5, inb, x))
    && r.store == Remaining(store, v5, done)
  }

  /** The store without the orphans already met. */
  function Remaining(store: Store, v5: bool, done: set<Key>): Store {
    map k | k in store && !(k in done && Orphan(store, v5, k)) :: store[k]
  }

  lemma StillRemaining(store: Store, v5: bool, done: set<Key>, key: Key)
    requires !Orphan(store, v5, key)
    ensures Remaining(store, v5, done + {key}) == Remaining(store, v5, done)
  {
  }

  lemma RestoreSentStep(r: Restored, v5: bool, out: seq<Message>, inb: seq<Message>, store: Store, done: set<Key>,
                        key: Key)
    requires DistinctIds(out) && Readable(v5, out, inb, store) && key.kind == Sent
    requires Partway(r, v5, out, inb, store, done) && key in store && key !in done && key in r.store
    ensures Partway(RestoreKey(r, v5, key), v5, out, inb, store, done + {key})
  {
    FindMember(out, key.id);
    var m := Find(out, key.id).m;
    RestoredSent(r, v5, out, inb, store, done, key, m);
    SentBack(r.outbound, v5, out, store, done, key, m);
    StillRemaining(store, v5, done, key);
  }

  lemma SentBack(back: seq<Message>, v5: bool, out: seq<Message>, store: Store, done: set<Key>, key: Key, m: Message)
    requires Sorted(back) && forall x :: x in back <==>
      KeyOf(store, Sent, v5, x.msgid) in done && OutBack(v5, out, store, x)
    requires key == KeyOf(store, Sent, v5, m.msgid) && key !in done && Find(out, m.msgid) == Some(m)
    ensures var back' := InsertInOrder(back, Restate(store, v5, m));
            && Sorted(back')
            && forall x :: x in back' <==> KeyOf(store, Sent, v5, x.msgid) in done + {key} && OutBack(v5, out, store, x)
  {
    var x := Restate(store, v5, m);
    assert x.msgid !in Ids(back);
    InsertKeepsSorted(back, x);
  }

  lemma RestoredSent(r: Restored, v5: bool, out: seq<Message>, inb: seq<Message>, store: Store, done: set<Key>,
                     key: Key, m: Message)
    requires Readable(v5, out, inb, store) && key.kind == Sent && m in out && m.msgid == key.id
    requires key in store && key in r.store
    requires r.store == Remaining(store, v5, done)
    ensures RestoreKey(r, v5, key) == r.(outbound := InsertInOrder(r.outbound, Restate(store, v5, m)))
  {
    assert PublishOf(store, KeyOf(store, Sent, v5, m.msgid), m, false);
    assert Key(SentRel, v5, m.msgid) in r.store <==> Key(SentRel, v5, m.msgid) in store;
  }

  lemma RestoreReceivedStep(r: Restored, v5: bool, out: seq<Message>, inb: seq<Message>, store: Store, done: set<Key>,
                            key: Key)
    requires DistinctIds(inb) && Readable(v5, out, inb, store) && key.kind == Received
    requires Partway(r, v5, out, inb, store, done) && key in store && key !in done && key in r.store
    ensures Partway(RestoreKey(r, v5, key), v5, out, inb, store, done + {key})
  {
    FindMember(inb, key.id);
    var m := Find(inb, key.id).m;
    assert PublishOf(store, KeyOf(store, Received, v5, m.msgid), m, v5);
    var x := Strip(v5, m);
    var r' := RestoreKey(r, v5, key);
    assert r'.inbound == r.inbound + [x];
    assert x.msgid !in Ids(r.inbound);
    FindAppend(r.inbound, x);
    StillRemaining(store, v5, done, key);
  }

  /** A PUBREL record only ever takes itself out of the store. */
  lemma RestoredRel(r: Restored, v5: bool, out: seq<Message>, inb: seq<Message>, store: Store, done: set<Key>, key: Key)
    requires Readable(v5, out, inb, store) && key.kind == SentRel
    requires key in store && key in r.store && r.store == Remaining(store, v5, done)
    ensures RestoreKey(r, v5, key) == r.(store := Remaining(store, v5, done + {key}))
  {
    assert store[key] == Pubrel(key.id);
    assert Key(Sent, v5, key.id) in r.store <==> Key(Sent, v5, key.id) in store;
    assert r.store - {key} == map k | k in r.store && k != key :: r.store[k];
  }

  lemma RestoreRelStep(r: Restored, v5: bool, out: seq<Message>, inb: seq<Message>, store: Store, done: set<Key>,
                       key: Key)
    requires Readable(v5, out, inb, store) && key.kind == SentRel
    requires Partway(r, v5, out, inb, store, done) && key in store && key !in done && key in r.store
    ensures Partway(RestoreKey(r, v5, key), v5, out, inb, store, done + {key})
  {
    RestoredRel(r, v5, out, inb, store, done, key);
    hide RestoreKey, Remaining, OutBack, InBack, Recorded;
  }

  lemma RestoreKeyStep(r: Restored, v5: bool, out: seq<Message>, inb: seq<Message>, store: Store, done: set<Key>,
                       key: Key)
    requires DistinctIds(out) && DistinctIds(inb) && Readable(v5, out, inb, store)
    requires Partway(r, v5, out, inb, store, done) && key in store && key !in done && key in r.store
    ensures Partway(RestoreKey(r, v5, key), v5, out, inb, store, done + {key})
  {
    match key.kind
    case Sent => RestoreSentStep(r, v5, out, inb, store, done, key);
    case Received => RestoreReceivedStep(r, v5, out, inb, store, done, key);
    case SentRel => RestoreRelStep(r, v5, out, inb, store, done, key);
  }

  lemma {:induction false} RestoreAllKeys(r: Restored, v5: bool, out: seq<Message>, inb: seq<Message>, store: Store,
                                          done: set<Key>, keys: seq<Key>)
    requires DistinctIds(out) && DistinctIds(inb) && Readable(v5, out, inb, store)
    requires Partway(r, v5, out, inb, store, done) && Listing(keys, r.store)
    requires forall k :: k in store <==> k in done || k in keys
    requires forall k :: k in keys ==> k !in done
    ensures Partway(RestoreKeys(r, v5, keys), v5, out, inb, store, store.Keys)
    decreases |keys|
  {
    if keys == [] {
      assert done == store.Keys;
    } else {
      var k := keys[0];
      RestoreKeyStep(r, v5, out, inb, store, done, k);
      NextKeys(store.Keys, done, keys);
      RestoreAllKeys(RestoreKey(r, v5, k), v5, out, inb, store, done + {k}, keys[1..]);
    }
  }

  lemma NextKeys(all: set<Key>, done: set<Key>, keys: seq<Key>)
    requires keys != [] && forall k :: k in all <==> k in done || k in keys
    requires forall k :: k in keys ==> k !in done
    requires forall i, j :: 0 <= i < j < |keys| ==> keys[i] != keys[j]
    ensures forall k :: k in all <==> k in done + {keys[0]} || k in keys[1..]
    ensures forall k :: k in keys[1..] ==> k !in done + {keys[0]}
  {
    assert keys == [keys[0]] + keys[1..];
  }

  /** Whatever order the keys come in, recovery brings back every in-flight message and nothing else, drops the
      orphaned PUBREL records and keeps the rest of the store. */
  lemma RestoreRebuilds(v5: bool, out: seq<Message>, inb: seq<Message>, store: Store, keys: seq<Key>)
    requires DistinctIds(out) && DistinctIds(inb) && Readable(v5, out, inb, store)
    requires Listing(keys, store) && forall k :: k in store ==> k in keys
    ensures var r := RestorePackets(store, v5, keys);
            && r.ok && DistinctIds(r.outbound) && DistinctIds(r.inbound)
            && (forall x :: x in r.outbound <==> OutBack(v5, out, store, x))
            && (forall x :: x in r.inbound <==> InBack(v5, inb, x))
            && r.store == Remaining(store, v5, store.Keys)
  {
    var r := RestoreKeys(Restored([], [], store, true), v5, keys);
    StartPartway(v5, out, inb, store);
    RestoreAllKeys(Restored([], [], store, true), v5, out, inb, store, {}, keys);
    WrapMembers(r.outbound);
    BackHaveRecords(v5, out, inb, store);
  }

  lemma StartPartway(v5: bool, out: seq<Message>, inb: seq<Message>, store: Store)
    ensures Partway(Restored([], [], store, true), v5, out, inb, store, {})
  {
  }

  lemma BackHaveRecords(v5: bool, out: seq<Message>, inb: seq<Message>, store: Store)
    requires DistinctIds(out) && DistinctIds(inb) && Readable(v5, out, inb, store)
    ensures forall x :: OutBack(v5, out, store, x) ==> KeyOf(store, Sent, v5, x.msgid) in store.Keys
    ensures forall x :: InBack(v5, inb, x) ==> KeyOf(store, Received, v5, x.msgid) in store.Keys
  {
    forall x | OutBack(v5, out, store, x) ensures KeyOf(store, Sent, v5, x.msgid) in store {
      FindMember(out, x.msgid);
      assert PublishOf(store, KeyOf(store, Sent, v5, x.msgid), Find(out, x.msgid).m, false);
    }
    forall x | InBack(v5, inb, x) ensures KeyOf(store, Received, v5, x.msgid) in store {
      FindMember(inb, x.msgid);
      assert PublishOf(store, KeyOf(store, Received, v5, x.msgid), Find(inb, x.msgid).m, v5);
    }
  }

  /** A crash between two steps loses nothing exactly when the PUBREL records are there for the messages
      that await PUBCOMP and for no other message in flight. */
  lemma RestoreExact(v5: bool, out: seq<Message>, inb: seq<Message>, store: Store, keys: seq<Key>)
    requires DistinctIds(out) && DistinctIds(inb) && Readable(v5, out, inb, store)
    requires Listing(keys, store) && forall k :: k in store ==> k in keys
    ensures (forall x :: x in RestorePackets(store, v5, keys).outbound <==> x in out)
            <==> forall m :: m in out ==> (m.next == PubComp <==> Key(SentRel, v5, m.msgid) in store)
  {
    RestoreRebuilds(v5, out, inb, store, keys);
    BackIsSame(v5, out, store, RestorePackets(store, v5, keys).outbound);
  }

  lemma BackIsSame(v5: bool, out: seq<Message>, store: Store, back: seq<Message>)
    requires DistinctIds(out) && (forall m :: m in out ==> OutboundForm(m))
    requires forall x :: x in back <==> OutBack(v5, out, store, x)
    ensures (forall x :: x in back <==> x in out)
            <==> forall m :: m in out ==> (m.next == PubComp <==> Key(SentRel, v5, m.msgid) in store)
  {
    forall x ensures OutBack(v5, out, store, x) <==> exists m :: m in out && x == Restate(store, v5, m) {
      FindMember(out, x.msgid);
    }
    if forall m :: m in out ==> (m.next == PubComp <==> Key(SentRel, v5, m.msgid) in store) {
      assert forall m :: m in out ==> Restate(store, v5, m) == m;
    } else {
      var m :| m in out && !(m.next == PubComp <==> Key(SentRel, v5, m.msgid) in store);
      var x := Restate(store, v5, m);
      assert x in back && x != m;
      if x in out {
        SameId(out, x, m);
      }
    }
  }

  lemma SameId(ms: seq<Message>, a: Message, b: Message)
    requires DistinctIds(ms) && a in ms && b in ms && a.msgid == b.msgid
    ensures a == b
  {
  }

  /** Under the mirror the handshake states, the store and, for a send order that recovery can tell, the
      order all come back. */
  lemma RestoreMirrored(v5: bool, out: seq<Message>, inb: seq<Message>, store: Store, keys: seq<Key>)
    requires DistinctIds(out) && DistinctIds(inb) && Mirror(v5, out, inb, store)
    requires Listing(keys, store) && forall k :: k in store ==> k in keys
    ensures var r := RestorePackets(store, v5, keys);
            && r.ok && r.store == store && DistinctIds(r.outbound) && DistinctIds(r.inbound)
            && (forall x :: x in r.outbound <==> x in out)
            && (forall x :: x in r.inbound <==> InBack(v5, inb, x))
            && (IdList(out) ==> (r.outbound == out <==> CyclicUp(out) && AllBeaten(out)))
  {
    RecordedReadable(v5, out, inb, store);
    RestoreRebuilds(v5, out, inb, store, keys);
    RestoreExact(v5, out, inb, store, keys);
    NoOrphans(v5, out, inb, store);
    if IdList(out) {
      var sorted := RestoredSorted(v5, out, inb, store, keys);
      RecoversSendOrder(out, sorted);
    }
  }

  lemma NoOrphans(v5: bool, out: seq<Message>, inb: seq<Message>, store: Store)
    requires Mirror(v5, out, inb, store)
    ensures Remaining(store, v5, store.Keys) == store
  {
    forall k | k in store && k.kind == SentRel ensures !Orphan(store, v5, k) {
      var m :| m in out && m.msgid == k.id;
      assert RecordOf(store, Key(Sent, v5, m.msgid), m);
    }
  }

  lemma RestoredSorted(v5: bool, out: seq<Message>, inb: seq<Message>, store: Store, keys: seq<Key>)
    returns (sorted: seq<Message>)
    requires DistinctIds(out) && DistinctIds(inb) && Readable(v5, out, inb, store)
    requires Listing(keys, store) && forall k :: k in store ==> k in keys
    ensures RestorePackets(store, v5, keys).outbound == Wrap(sorted) && Sorted(sorted)
    ensures forall x :: x in sorted <==> x in RestorePackets(store, v5, keys).outbound
  {
    var r0 := Restored([], [], store, true);
    StartPartway(v5, out, inb, store);
    RestoreAllKeys(r0, v5, out, inb, store, {}, keys);
    sorted := RestoreKeys(r0, v5, keys).outbound;
    WrapMembers(sorted);
  }

  /** A version 5 client on the records of a 3.1.1 client: a message that awaits PUBCOMP comes back awaiting PUBREC, and
      its PUBREL record is removed. */
  lemma OldRecordsMisread(c: Content)
    requires c.Content?
    ensures var m := Message(1, 2, false, PubComp, c);
            var store := map[Key(Sent, false, 1) := Publish(false, 2, false, 1, c),
                             Key(SentRel, false, 1) := Pubrel(1)];
            var keys := [Key(Sent, false, 1), Key(SentRel, false, 1)];
            && Recorded(false, [m], [], store) && Listing(keys, store)
            && RestorePackets(store, false, keys).outbound == [m]
            && RestorePackets(store, true, keys).outbound == [m.(next := PubRec)]
            && RestorePackets(store, true, keys).store == map[Key(Sent, false, 1) := store[Key(Sent, false, 1)]]
  {
    var m := Message(1, 2, false, PubComp, c);
    var store := map[Key(Sent, false, 1) := Publish(false, 2, false, 1, c), Key(SentRel, false, 1) := Pubrel(1)];
    var keys := [Key(Sent, false, 1), Key(SentRel, false, 1)];
    assert m in [m] && 1 in Ids([m]);
    assert RecordOf(store, Key(Sent, false, 1), m);
    assert Recorded(false, [m], [], store);
    TwoKeys(store, false, keys);
    assert RestorePackets(store, false, keys).outbound == [m];
    TwoKeys(store, true, keys);
    assert RestorePackets(store, true, keys).outbound == [m.(next := PubRec)];
    assert store - {keys[1]} == map[keys[0] := store[keys[0]]];
  }

  lemma TwoKeys(store: Store, v5: bool, keys: seq<Key>)
    requires |keys| == 2 && Listing(keys, store)
    ensures var r := RestoreKey(Restored([], [], store, true), v5, keys[0]);
            keys[1] in r.store
            && RestoreKeys(Restored([], [], store, true), v5, keys) == if r.ok then RestoreKey(r, v5, keys[1]) else r
  {
    var r0 := Restored([], [], store, true);
    NextListing(r0, v5, keys);
    var r := RestoreKey(r0, v5, keys[0]);
    assert keys[1..] == [keys[1]];
    hide RestoreKey;
    assert RestoreKeys(r0, v5, keys) == RestoreKeys(r, v5, [keys[1]]);
    if r.ok {
      NextListing(r, v5, [keys[1]]);
      assert [keys[1]][1..] == [];
      assert RestoreKeys(r, v5, [keys[1]]) == RestoreKeys(RestoreKey(r, v5, keys[1]), v5, []);
    }
  }

  /** With a 3.1.1 PUBLISH record and a version 5 PUBREL record, what comes back depends on the order of the keys. */
  lemma OrderOfKeysMatters(c: Content)
    requires c.Content?
    ensures var m := Message(1, 2, false, PubComp, c);
            var sent, rel := Key(Sent, false, 1), Key(SentRel, true, 1);
            var store := map[sent := Publish(false, 2, false, 1, c), rel := Pubrel(1)];
            && Listing([sent, rel], store) && Listing([rel, sent], store)
            && RestorePackets(store, true, [sent, rel]).outbound == [m]
            && RestorePackets(store, true, [rel, sent]).outbound == [m.(next := PubRec)]
  {
    var sent, rel := Key(Sent, false, 1), Key(SentRel, true, 1);
    var store := map[sent := Publish(false, 2, false, 1, c), rel := Pubrel(1)];
    TwoKeys(store, true, [sent, rel]);
    TwoKeys(store, true, [rel, sent]);
  }

  /** A QoS 2 message received as a 3.1.1 client and not yet released loses its content when a version 5 client restores
      it, and is then never delivered. */
  lemma OldInboundLost(c: Content)
    requires c.Content?
    ensures var store := map[Key(Received, false, 1) := Publish(false, 2, false, 1, c)];
            var keys := [Key(Received, false, 1)];
            Listing(keys, store) &&
            var r := RestorePackets(store, true, keys);
            && r.inbound == [Message(1, 2, false, PubRel, NoContent)]
            && HandlePubrel(Session([], r.inbound, 0, r.store, []), true, 1).s.delivered == []
            && var s := Session([], RestorePackets(store, false, keys).inbound, 0, store, []);
               HandlePubrel(s, false, 1).s.delivered == [Entry(c, 2, false)]
  {
    var store := map[Key(Received, false, 1) := Publish(false, 2, false, 1, c)];
    var keys := [Key(Received, false, 1)];
    assert keys[1..] == [];
    assert RestoreKeys(Restored([], [], store, true), true, keys) ==
      RestoreKey(Restored([], [], store, true), true, keys[0]);
    assert RestoreKeys(Restored([], [], store, true), false, keys) ==
      RestoreKey(Restored([], [], store, true), false, keys[0]);
    assert RestorePackets(store, true, keys).inbound == [Message(1, 2, false, PubRel, NoContent)];
    assert RestorePackets(store, false, keys).inbound == [Message(1, 2, false, PubRel, c)];
  }

  /** A PUBREC for an id that is not in flight leaves a PUBREL record behind. If that id is then given to a new
      QoS 2 message and the client restarts, the message comes back as if its PUBREC had arrived. */
  lemma StrayPubrecBreaksRestore(v5: bool, c: Content)
    requires c.Content?
    ensures var s := StartPublish(HandlePubrec(FRESH, v5, 1, 0).s, v5, c, 2, false, 1).s;
            var keys := [Key(SentRel, v5, 1), Key(Sent, v5, 1)];
            && Listing(keys, s.store) && (forall k :: k in s.store ==> k in keys)
            && s.outbound == [Message(1, 2, false, PubRec, c)]
            && RestorePackets(s.store, v5, keys).outbound == [Message(1, 2, false, PubComp, c)]
  {
    var s := StartPublish(HandlePubrec(FRESH, v5, 1, 0).s, v5, c, 2, false, 1).s;
    var keys := [Key(SentRel, v5, 1), Key(Sent, v5, 1)];
    assert s.store == map[Key(SentRel, v5, 1) := Pubrel(1), Key(Sent, v5, 1) := Publish(false, 2, false, 1, c)];
    assert s.outbound == [Message(1, 2, false, PubRec, c)];
    var r0 := Restored([], [], s.store, true);
    var r1 := RestoreKey(r0, v5, keys[0]);
    assert r1 == r0;
    assert keys[1..] == [Key(Sent, v5, 1)];
    var r2 := RestoreKey(r1, v5, keys[1]);
    assert r2.outbound == [Message(1, 2, false, PubComp, c)];
    assert RestoreKeys(r1, v5, keys[1..]) == r2 by {
      assert keys[1..][1..] == [];
    }
  }
}
