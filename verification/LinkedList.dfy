/** The doubly linked list with a search cursor of LinkedList.c. `nodes` is the one sequence that the next and
    prev links both spell out; every operation keeps Valid, so it holds over every sequence of operations. */
module LinkedList {
  import opened Sequences

  class Element<T> {
    var content: T
    var prev: Element?<T>
    var next: Element?<T>

    constructor (content: T)
      ensures this.content == content
    {
      this.content := content;
      prev, next := null, null;
    }
  }

  /** Contents are compared by the callback, or by equality where the source passes no callback. */
  datatype Taken<T> = Nothing | Took(content: T)

  function FirstMatch<T>(s: seq<T>, p: T -> bool): (k: nat)
    ensures k <= |s| && (k < |s| ==> p(s[k]))
    ensures forall j :: 0 <= j < k ==> !p(s[j])
  {
    if s == [] then 0 else if p(s[0]) then 0 else 1 + FirstMatch(s[1..], p)
  }

  ghost predicate AtMostOne<T>(s: seq<T>, p: T -> bool) {
    forall i, j :: 0 <= i < j < |s| ==> !(p(s[i]) && p(s[j]))
  }

  ghost predicate Distinct<T>(s: seq<T>) {
    forall i, j :: 0 <= i < j < |s| ==> s[i] != s[j]
  }

  /** The links of the elements from `nodes[0]` on mirror the sequence. */
  ghost predicate Linked<T>(nodes: seq<Element<T>>)
    reads nodes
  {
    && (forall i {:trigger nodes[i].next} :: 0 <= i < |nodes| ==>
          nodes[i].next == if i + 1 < |nodes| then nodes[i + 1] else null)
    && (forall i {:trigger nodes[i].prev} :: 0 <= i < |nodes| ==> nodes[i].prev == if i > 0 then nodes[i - 1] else null)
  }

  ghost function ContentsOf<T>(nodes: seq<Element<T>>): (s: seq<T>)
    reads nodes
    ensures |s| == |nodes| && forall i :: 0 <= i < |nodes| ==> s[i] == nodes[i].content
  {
    if nodes == [] then [] else [nodes[0].content] + ContentsOf(nodes[1..])
  }

  class List<T> {
    var first: Element?<T>
    var last: Element?<T>
    var current: Element?<T>
    var count: int
    ghost var nodes: seq<Element<T>>

    /** The links and the ends. */
    ghost predicate Chain()
      reads `first, `last, `count, `nodes, nodes
    {
      && Distinct(nodes) && Linked(nodes)
      && first == (if nodes == [] then null else nodes[0])
      && last == (if nodes == [] then null else nodes[|nodes| - 1])
      && count == |nodes|
    }

    ghost predicate Valid()
      reads this, nodes
    {
      Chain() && (current == null || current in nodes)
    }

    ghost function Contents(): seq<T>
      reads `nodes, nodes
    {
      ContentsOf(nodes)
    }

    constructor ()
      ensures Valid() && nodes == []
    {
      first, last, current, count, nodes := null, null, null, 0, [];
    }

    /** Walk the list: from null to the first element, from the k-th element to the one behind it. */
    method NextElement(pos: Element?<T>, ghost k: nat) returns (r: Element?<T>)
      requires Valid() && (pos == null || (k < |nodes| && pos == nodes[k]))
      ensures pos == null ==> r == if nodes == [] then null else nodes[0]
      ensures pos != null ==> r == if k + 1 < |nodes| then nodes[k + 1] else null
    {
      r := if pos == null then first else pos.next;
    }

    method AppendNoMalloc(content: T, newel: Element<T>)
      requires Valid() && newel !in nodes
      modifies this, nodes, newel
      ensures Valid() && nodes == old(nodes) + [newel] && newel.content == content && current == old(current)
      ensures forall e :: e in old(nodes) ==> e.content == old(e.content)
    {
      newel.content := content;
      newel.next := null;
      newel.prev := last;
      if first == null {
        first := newel;
      } else {
        last.next := newel;
      }
      last := newel;
      count := count + 1;
      nodes := nodes + [newel];
    }

    method Append(content: T) returns (newel: Element<T>)
      requires Valid()
      modifies this, nodes
      ensures Valid() && fresh(newel) && nodes == old(nodes) + [newel] && current == old(current)
      ensures Contents() == old(Contents()) + [content]
    {
      newel := new Element(content);
      AppendNoMalloc(content, newel);
    }

    /** Insert before `index`, or append. */
    method Insert(content: T, index: Element?<T>, ghost k: nat) returns (newel: Element<T>)
      requires Valid() && k <= |nodes| && index == if k < |nodes| then nodes[k] else null
      modifies this, nodes
      ensures Valid() && fresh(newel) && current == old(current)
      ensures nodes == old(nodes)[..k] + [newel] + old(nodes)[k..]
      ensures Contents() == old(Contents())[..k] + [content] + old(Contents())[k..]
    {
      hide Linked, Distinct, ContentsOf;
      newel := InsertNode(content, index, k);
      InsertedContents(old(nodes), old(Contents()), nodes, Contents(), k, newel);
    }

    method InsertNode(content: T, index: Element?<T>, ghost k: nat) returns (newel: Element<T>)
      requires Valid() && k <= |nodes| && index == if k < |nodes| then nodes[k] else null
      modifies this, nodes
      ensures Valid() && fresh(newel) && current == old(current)
      ensures nodes == old(nodes)[..k] + [newel] + old(nodes)[k..]
      ensures newel.content == content && forall e :: e in old(nodes) ==> e.content == old(e.content)
    {
      hide Linked, Distinct;
      newel := new Element(content);
      if index == null {
        AppendNoMalloc(content, newel);
      } else {
        InsertBefore(newel, index, k);
      }
    }

    method InsertBefore(newel: Element<T>, index: Element<T>, ghost k: nat)
      requires Chain() && k < |nodes| && index == nodes[k] && newel !in nodes
      modifies `first, `count, `nodes, nodes, newel
      ensures Chain() && nodes == old(nodes)[..k] + [newel] + old(nodes)[k..]
      ensures newel.content == old(newel.content) && forall e :: e in old(nodes) ==> e.content == old(e.content)
    {
      newel.next := index;
      newel.prev := index.prev;
      index.prev := newel;
      if newel.prev != null {
        newel.prev.next := newel;
      } else {
        first := newel;
      }
      count := count + 1;
      ghost var was := nodes;
      nodes := was[..k] + [newel] + was[k..];
      Spliced(was, k, newel, nodes);
    }

    /** The cursor is tried first; then a linear search, which moves the cursor to what it finds. */
    method FindItem(p: T -> bool) returns (rc: Element?<T>)
      requires Valid()
      modifies `current
      ensures Valid()
      ensures rc == null <==> FirstMatch(Contents(), p) == |nodes|
      ensures rc != null ==> rc in nodes && p(rc.content) && current == rc
      ensures rc == null ==> current == old(current)
      ensures old(current) != null && p(old(current).content) ==> rc == old(current)
      ensures rc != null && !(old(current) != null && p(old(current).content)) ==>
        rc == nodes[FirstMatch(Contents(), p)]
      ensures rc != null && AtMostOne(Contents(), p) ==> rc == nodes[FirstMatch(Contents(), p)]
    {
      hide Linked, Distinct, ContentsOf;
      rc := null;
      if current != null && p(current.content) {
        rc := current;
        ghost var k :| 0 <= k < |nodes| && nodes[k] == current;
        assert p(Contents()[k]);
        assert FirstMatch(Contents(), p) <= k;
      } else {
        rc := Search(p);
        if rc != null {
          current := rc;
        }
      }
    }

    /** The linear search. */
    method Search(p: T -> bool) returns (rc: Element?<T>)
      requires Valid()
      ensures var k := FirstMatch(Contents(), p); rc == if k < |nodes| then nodes[k] else null
    {
      hide Distinct, ContentsOf;
      rc := NextElement(null, 0);
      ghost var k := 0;
      while rc != null && !p(rc.content)
        invariant 0 <= k <= |nodes| && rc == if k < |nodes| then nodes[k] else null
        invariant forall j :: 0 <= j < k ==> !p(Contents()[j])
        decreases |nodes| - k
      {
        rc := NextElement(rc, k);
        k := k + 1;
      }
      assert k < |nodes| ==> p(Contents()[k]);
    }

    /** Remove what FindItem finds; the cursor goes on to the next element only if it stood on the removed one. */
    method Unlink(p: T -> bool) returns (removed: bool, ghost k: nat)
      requires Valid()
      modifies this, nodes
      ensures Valid() && forall e :: e in old(nodes) ==> e.content == old(e.content)
      ensures removed <==> FirstMatch(old(Contents()), p) < |old(nodes)|
      ensures !removed ==> nodes == old(nodes) && current == old(current)
      ensures removed ==> k < |old(nodes)| && p(old(Contents())[k]) && nodes == Without(old(nodes), k)
      ensures removed ==> Contents() == Without(old(Contents()), k)
      ensures removed ==> if old(current) != null && p(old(current.content)) then old(nodes)[k] == old(current)
                          else k == FirstMatch(old(Contents()), p)
      ensures removed ==>
        current == if old(current) != old(nodes)[k] then old(current)
                   else if k + 1 < |old(nodes)| then old(nodes)[k + 1] else null
    {
      hide FirstMatch, ContentsOf, Linked, Distinct;
      removed, k := UnlinkNode(p);
      if removed {
        RemovedContents(old(nodes), old(Contents()), nodes, Contents(), k);
      }
    }

    method UnlinkNode(p: T -> bool) returns (removed: bool, ghost k: nat)
      requires Valid()
      modifies this, nodes
      ensures Valid() && forall e :: e in old(nodes) ==> e.content == old(e.content)
      ensures removed <==> FirstMatch(old(Contents()), p) < |old(nodes)|
      ensures !removed ==> nodes == old(nodes) && current == old(current)
      ensures removed ==> k < |old(nodes)| && p(old(Contents())[k]) && nodes == Without(old(nodes), k)
      ensures removed ==> if old(current) != null && p(old(current.content)) then old(nodes)[k] == old(current)
                          else k == FirstMatch(old(Contents()), p)
      ensures removed ==>
        current == if old(current) != old(nodes)[k] then old(current)
                   else if k + 1 < |old(nodes)| then old(nodes)[k + 1] else null
    {
      hide FirstMatch, ContentsOf, Without;
      var saved := current;
      var found := FindItem(p);
      k := 0;
      if found == null {
        return false, k;
      }
      k := Place(nodes, current);
      var next := current.next;
      assert next == if k + 1 < |nodes| then nodes[k + 1] else null;
      assert k + 1 < |nodes| ==> nodes[k + 1] != nodes[k];
      hide Linked, Distinct;
      Bypass(current, k);
      current := if saved == current then next else saved;
      return true, k;
    }

    /** Take an element out of the chain. */
    method Bypass(e: Element<T>, ghost k: nat)
      requires Chain() && k < |nodes| && e == nodes[k]
      modifies `first, `last, `count, `nodes, nodes
      ensures Chain() && nodes == Without(old(nodes), k)
      ensures forall x :: x in old(nodes) && x != e ==> x in nodes
      ensures forall x :: x in old(nodes) ==> x.content == old(x.content)
    {
      if e.prev == null {
        first := e.next;
      } else {
        e.prev.next := e.next;
      }
      if e.next == null {
        last := e.prev;
      } else {
        e.next.prev := e.prev;
      }
      count := count - 1;
      ghost var was := nodes;
      nodes := Without(was, k);
      Removed(was, k, nodes);
    }

    /** Take the first element off the list. */
    method DetachHead() returns (r: Taken<T>)
      requires Valid()
      modifies this, nodes
      ensures Valid() && forall e :: e in old(nodes) ==> e.content == old(e.content)
      ensures if old(nodes) == [] then r == Nothing && nodes == [] && current == old(current)
              else r == Took(old(nodes[0].content)) && nodes == old(nodes)[1..] &&
                   current == if old(current) == old(nodes)[0] then (if nodes == [] then null else nodes[0])
                              else old(current)
    {
      r := Nothing;
      if count > 0 {
        if current == first {
          current := first.next;
        }
        if last == first {
          last := null;
        }
        r := Took(first.content);
        first := first.next;
        if first != null {
          first.prev := null;
        }
        count := count - 1;
        assert nodes[0] !in nodes[1..];
        nodes := nodes[1..];
      }
    }

    /** Take the last element off the list; a cursor on it steps back. */
    method PopTail() returns (r: Taken<T>)
      requires Valid()
      modifies this, nodes
      ensures Valid() && forall e :: e in old(nodes) ==> e.content == old(e.content)
      ensures var n := |old(nodes)| - 1;
              if n < 0 then r == Nothing && nodes == [] && current == old(current)
              else r == Took(old(nodes[|nodes| - 1].content)) && nodes == old(nodes)[..n] &&
                   current == if old(current) == old(nodes)[n] then (if n == 0 then null else nodes[n - 1])
                              else old(current)
    {
      r := Nothing;
      if count > 0 {
        if current == last {
          current := last.prev;
        }
        if first == last {
          first := null;
        }
        r := Took(last.content);
        last := last.prev;
        if last != null {
          last.next := null;
        }
        count := count - 1;
        assert nodes[|nodes| - 1] !in nodes[..|nodes| - 1];
        nodes := nodes[..|nodes| - 1];
      }
    }

    method Empty()
      requires Valid()
      modifies this
      ensures Valid() && nodes == []
    {
      var k: nat := 0;
      while first != null
        invariant 0 <= k <= |nodes| && Linked(nodes) && nodes == old(nodes)
        invariant first == if k < |nodes| then nodes[k] else null
        decreases |nodes| - k
      {
        first := first.next;
        k := k + 1;
      }
      count, first, last, current, nodes := 0, null, null, null, [];
    }

    lemma Links(k: nat)
      requires Linked(nodes) && k < |nodes|
      ensures nodes[k].next == if k + 1 < |nodes| then nodes[k + 1] else null
      ensures nodes[k].prev == if k > 0 then nodes[k - 1] else null
    {
    }

    /** The relinking of wrapMsgID: the list is opened in front of `e`. */
    method RotateTo(e: Element<T>, ghost k: nat)
      requires Valid() && 0 < k < |nodes| && e == nodes[k]
      modifies this, nodes
      ensures Valid() && current == old(current) && nodes == old(nodes)[k..] + old(nodes)[..k]
      ensures Contents() == old(Contents())[k..] + old(Contents())[..k]
    {
      hide Linked, Distinct, ContentsOf;
      RotateNodes(e, k);
      TurnedContents(old(nodes), old(Contents()), nodes, Contents(), k);
    }

    method RotateNodes(e: Element<T>, ghost k: nat)
      requires Valid() && 0 < k < |nodes| && e == nodes[k]
      modifies this, nodes
      ensures Valid() && nodes == old(nodes)[k..] + old(nodes)[..k] && current == old(current)
      ensures forall x :: x in old(nodes) ==> x.content == old(x.content)
    {
      ghost var was := nodes;
      first.prev := last;
      last.next := first;
      first := e;
      last := e.prev;
      first.prev := null;
      last.next := null;
      nodes := was[k..] + was[..k];
      Turned(was, k, nodes);
      TurnedLinks(was, k, nodes);
      hide Linked, Distinct;
    }
  }

  lemma TurnedContents<T>(was: seq<Element<T>>, cs: seq<T>, now: seq<Element<T>>, ds: seq<T>, k: nat)
    requires k <= |was| && now == was[k..] + was[..k] && |cs| == |was| && |ds| == |now|
    requires forall i :: 0 <= i < |was| ==> cs[i] == was[i].content
    requires forall i :: 0 <= i < |now| ==> ds[i] == now[i].content
    ensures ds == cs[k..] + cs[..k]
  {
    var r, n := cs[k..] + cs[..k], |was| - k;
    forall i | 0 <= i < |ds| ensures ds[i] == r[i] {
      assert now[i] == was[if i < n then i + k else i - n];
    }
  }

  lemma TurnedLinks<T>(was: seq<Element<T>>, k: nat, now: seq<Element<T>>)
    requires 0 < k < |was| && |now| == |was|
    requires forall i :: 0 <= i < |was| - k ==> now[i] == was[i + k]
    requires forall i :: |was| - k <= i < |was| ==> now[i] == was[i - (|was| - k)]
    requires forall i {:trigger was[i].next} :: 0 <= i < |was| ==>
               was[i].next == if i == k - 1 then null else if i + 1 < |was| then was[i + 1] else was[0]
    requires forall i {:trigger was[i].prev} :: 0 <= i < |was| ==>
               was[i].prev == if i == k then null else if i > 0 then was[i - 1] else was[|was| - 1]
    ensures Linked(now)
  {
    var n := |was| - k;
    forall i | 0 <= i < |now|
      ensures now[i].next == if i + 1 < |now| then now[i + 1] else null
      ensures now[i].prev == if i > 0 then now[i - 1] else null
    {
      var j := if i < n then i + k else i - n;
      assert now[i] == was[j];
    }
  }

  lemma Turned<T>(was: seq<T>, k: nat, now: seq<T>)
    requires k <= |was| && now == was[k..] + was[..k] && Distinct(was)
    ensures |now| == |was| && Distinct(now)
    ensures forall i :: 0 <= i < |was| - k ==> now[i] == was[i + k]
    ensures forall i :: |was| - k <= i < |was| ==> now[i] == was[i - (|was| - k)]
    ensures forall x :: x in was ==> x in now
  {
    var n := |was| - k;
    forall i, j | 0 <= i < j < |now| ensures now[i] != now[j] {
      assert now[i] == was[if i < n then i + k else i - n] && now[j] == was[if j < n then j + k else j - n];
    }
    assert was == was[..k] + was[k..];
  }

  lemma Place<T>(nodes: seq<Element<T>>, e: Element<T>) returns (k: nat)
    requires e in nodes && Distinct(nodes)
    ensures k < |nodes| && nodes[k] == e && forall j :: 0 <= j < |nodes| && nodes[j] == e ==> j == k
  {
    k :| 0 <= k < |nodes| && nodes[k] == e;
  }

  lemma RemovedContents<T>(was: seq<Element<T>>, cs: seq<T>, now: seq<Element<T>>, ds: seq<T>, k: nat)
    requires k < |was| && now == Without(was, k) && |cs| == |was| && |ds| == |now|
    requires forall i :: 0 <= i < |was| ==> cs[i] == was[i].content
    requires forall i :: 0 <= i < |now| ==> ds[i] == now[i].content
    ensures ds == Without(cs, k)
  {
    forall i | 0 <= i < |ds| ensures ds[i] == Without(cs, k)[i] {
      assert now[i] == was[if i < k then i else i + 1];
    }
  }

  lemma InsertedContents<T>(was: seq<Element<T>>, cs: seq<T>, now: seq<Element<T>>, ds: seq<T>, k: nat, e: Element<T>)
    requires k <= |was| && now == was[..k] + [e] + was[k..] && |cs| == |was| && |ds| == |now|
    requires forall i :: 0 <= i < |was| ==> cs[i] == was[i].content
    requires forall i :: 0 <= i < |now| ==> ds[i] == now[i].content
    ensures ds == cs[..k] + [e.content] + cs[k..]
  {
    var r := cs[..k] + [e.content] + cs[k..];
    forall i | 0 <= i < |ds| ensures ds[i] == r[i] {
      if i < k {
        assert now[i] == was[i];
      } else if i > k {
        assert now[i] == was[i - 1];
      }
    }
  }

  lemma Spliced<T>(was: seq<Element<T>>, k: nat, e: Element<T>, now: seq<Element<T>>)
    requires k <= |was| && now == was[..k] + [e] + was[k..] && e !in was && Distinct(was)
    ensures |now| == |was| + 1 && now[k] == e && Distinct(now)
    ensures forall i :: 0 <= i < k ==> now[i] == was[i]
    ensures forall i :: k < i < |now| ==> now[i] == was[i - 1]
  {
    forall i, j | 0 <= i < j < |now| ensures now[i] != now[j] {
      var a, b := if i > k then i - 1 else i, if j > k then j - 1 else j;
      if i != k && j != k { assert now[i] == was[a] && now[j] == was[b]; }
    }
  }

  lemma Removed<T>(was: seq<T>, k: nat, now: seq<T>)
    requires k < |was| && now == Without(was, k) && Distinct(was)
    ensures |now| == |was| - 1 && Distinct(now) && was[k] !in now
    ensures forall i :: 0 <= i < k ==> now[i] == was[i]
    ensures forall i :: k <= i < |now| ==> now[i] == was[i + 1]
    ensures forall x :: x in was && x != was[k] ==> x in now
  {
    forall i, j | 0 <= i < j < |now| ensures now[i] != now[j] {
      var a, b := if i < k then i else i + 1, if j < k then j else j + 1;
      assert now[i] == was[a] && now[j] == was[b];
    }
    assert was == was[..k] + [was[k]] + was[k + 1..];
  }
}
