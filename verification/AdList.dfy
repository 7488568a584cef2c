/** The doubly linked list of adlist.c: nodes on the heap that point at each other, kept equal to a
    mathematical sequence of nodes. */
module AdList {
  import opened Options

  class Node<T> {
    var prev: Node?<T>
    var next: Node?<T>
    var value: T

    constructor (value: T)
      ensures this.value == value && prev == null && next == null
    {
      this.value, prev, next := value, null, null;
    }
  }

  function First<T>(s: seq<Node<T>>, otherwise: Node?<T>): Node?<T> {
    if s == [] then otherwise else s[0]
  }

  function Last<T>(s: seq<Node<T>>, otherwise: Node?<T>): Node?<T> {
    if s == [] then otherwise else s[|s| - 1]
  }

  ghost predicate Distinct<T>(s: seq<Node<T>>) {
    forall i, j :: 0 <= i < j < |s| ==> s[i] != s[j]
  }

  /** A stretch of a list: each node points at its neighbours, and the ends point at `before` and `after`. */
  ghost predicate Stretch<T>(s: seq<Node<T>>, before: Node?<T>, after: Node?<T>)
    reads s
  {
    && (forall i {:trigger s[i].next} :: 0 <= i < |s| ==> s[i].next == if i == |s| - 1 then after else s[i + 1])
    && (forall i {:trigger s[i].prev} :: 0 <= i < |s| ==> s[i].prev == if i == 0 then before else s[i - 1])
  }

  lemma JoinStretches<T>(s: seq<Node<T>>, t: seq<Node<T>>, before: Node?<T>, after: Node?<T>)
    requires Stretch(s, before, First(t, after)) && Stretch(t, Last(s, before), after)
    ensures Stretch(s + t, before, after)
  {
    var r := s + t;
    forall j | 0 <= j < |r| ensures r[j].next == if j == |r| - 1 then after else r[j + 1] {
      if j < |s| {
        assert r[j] == s[j];
      } else {
        assert r[j] == t[j - |s|];
      }
    }
    forall j | 0 <= j < |r| ensures r[j].prev == if j == 0 then before else r[j - 1] {
      if j < |s| {
        assert r[j] == s[j];
      } else {
        assert r[j] == t[j - |s|];
      }
    }
  }

  lemma SplitStretch<T>(s: seq<Node<T>>, i: nat, before: Node?<T>, after: Node?<T>)
    requires i <= |s| && Stretch(s, before, after)
    ensures Stretch(s[..i], before, First(s[i..], after))
    ensures Stretch(s[i..], Last(s[..i], before), after)
  {
    var a, b := s[..i], s[i..];
    forall j | 0 <= j < |a| ensures a[j].next == (if j == |a| - 1 then First(b, after) else a[j + 1])
                                 && a[j].prev == (if j == 0 then before else a[j - 1]) {
      assert a[j] == s[j];
    }
    forall j | 0 <= j < |b| ensures b[j].next == (if j == |b| - 1 then after else b[j + 1])
                                 && b[j].prev == (if j == 0 then Last(a, before) else b[j - 1]) {
      assert b[j] == s[i + j];
    }
  }

  lemma NoNodes<T>()
    ensures Distinct<T>([]) && Stretch<T>([], null, null)
  {
  }

  class List<T> {
    var head: Node?<T>
    var tail: Node?<T>
    var len: nat
    /** The nodes in order. */
    ghost var nodes: seq<Node<T>>

    ghost predicate Valid()
      reads this, nodes
    {
      && Distinct(nodes)
      && Stretch(nodes, null, null)
      && len == |nodes|
      && head == First(nodes, null)
      && tail == Last(nodes, null)
    }

    /** `listCreate`. */
    constructor ()
      ensures Valid() && nodes == []
    {
      head, tail, len, nodes := null, null, 0, [];
    }

    /** `listEmpty`: every value goes to the list's `free` function once, in order; `freed` is what it gets. */
    method Empty() returns (freed: seq<T>)
      requires Valid()
      modifies this
      ensures Valid() && nodes == []
      ensures |freed| == |old(nodes)| && forall i :: 0 <= i < |freed| ==> freed[i] == old(nodes)[i].value
    {
      hide Distinct;
      ghost var all := nodes;
      var current := head;
      freed := [];
      for i := 0 to len
        invariant nodes == all && len == |all| && |freed| == i
        invariant current == First(all[i..], null)
        invariant forall j :: 0 <= j < i ==> freed[j] == all[j].value
      {
        var next := current.next;
        freed := freed + [current.value];
        current := next;
      }
      head, tail, len, nodes := null, null, 0, [];
      NoNodes<T>();
    }

    /** `listAddNodeHead`. */
    method AddNodeHead(value: T)
      requires Valid()
      modifies this, nodes
      ensures Valid() && |nodes| == |old(nodes)| + 1 && nodes[1..] == old(nodes) && fresh(nodes[0])
      ensures nodes[0].value == value && forall n :: n in old(nodes) ==> n.value == old(n.value)
    {
      var node := new Node(value);
      if len == 0 {
        head, tail := node, node;
      } else {
        node.next := head;
        head.prev := node;
        head := node;
      }
      assert Stretch(nodes, node, null);
      OneNode(node, null, First(nodes, null));
      hide Stretch, Distinct;
      Joined([node], nodes);
      nodes := [node] + nodes;
      len := len + 1;
    }

    /** `listAddNodeTail`. */
    method AddNodeTail(value: T)
      requires Valid()
      modifies this, nodes
      ensures Valid() && |nodes| == |old(nodes)| + 1
      ensures nodes[..|old(nodes)|] == old(nodes) && fresh(nodes[|old(nodes)|])
      ensures nodes[|old(nodes)|].value == value && forall n :: n in old(nodes) ==> n.value == old(n.value)
    {
      var node := new Node(value);
      if len == 0 {
        head, tail := node, node;
      } else {
        node.prev := tail;
        tail.next := node;
        tail := node;
      }
      assert Stretch(nodes, null, node);
      OneNode(node, Last(nodes, null), null);
      hide Stretch, Distinct;
      Joined(nodes, [node]);
      nodes := nodes + [node];
      len := len + 1;
    }

    /** `listInsertNode`. */
    method InsertNode(at: Node<T>, value: T, after: bool, ghost i: nat)
      requires Valid() && i < |nodes| && nodes[i] == at
      modifies this, nodes
      ensures Valid()
      ensures var k := if after then i + 1 else i;
        && |nodes| == |old(nodes)| + 1 && fresh(nodes[k]) && nodes[k].value == value
        && nodes == old(nodes)[..k] + [nodes[k]] + old(nodes)[k..]
      ensures forall n :: n in old(nodes) ==> n.value == old(n.value)
    {
      hide Stretch, Distinct, First, Last;
      ghost var k := if after then i + 1 else i;
      Around(nodes, i);
      var node := NewBeside(at, value, after, i);
      Ends(nodes, k, node);
      if after {
        if tail == at {
          tail := node;
        }
      } else if head == at {
        head := node;
      }
      Splice(node, k);
    }

    /** A node with the links it will have behind or in front of `at`. */
    method NewBeside(at: Node<T>, value: T, after: bool, ghost i: nat) returns (node: Node<T>)
      requires Valid() && i < |nodes| && nodes[i] == at
      ensures fresh(node) && node.value == value
      ensures var k := if after then i + 1 else i;
        node.prev == Last(nodes[..k], null) && node.next == First(nodes[k..], null)
    {
      PartedAround(nodes, i);
      Around(nodes, i);
      hide Stretch, Distinct, First, Last;
      node := new Node(value);
      if after {
        node.prev := at;
        node.next := at.next;
      } else {
        node.next := at;
        node.prev := at.prev;
      }
    }

    /** Make the neighbours of a new node point at it. */
    method Splice(node: Node<T>, ghost k: nat)
      requires Distinct(nodes) && Stretch(nodes, null, null) && k <= |nodes| && node !in nodes && len == |nodes|
      requires node.prev == Last(nodes[..k], null) && node.next == First(nodes[k..], null)
      modifies this`nodes, this`len, nodes
      ensures nodes == old(nodes)[..k] + [node] + old(nodes)[k..] && len == |nodes|
      ensures Distinct(nodes) && Stretch(nodes, null, null)
      ensures First(nodes, null) == First(old(nodes)[..k], node) && Last(nodes, null) == Last(old(nodes)[k..], node)
      ensures forall n :: n in old(nodes) ==> n.value == old(n.value)
      ensures node.value == old(node.value)
    {
      ghost var a, b := nodes[..k], nodes[k..];
      Parted(nodes, k);
      if node.prev != null {
        node.prev.next := node;
      }
      if node.next != null {
        node.next.prev := node;
      }
      assert Stretch(a, null, node);
      assert Stretch(b, node, null);
      OneNode(node, Last(a, null), First(b, null));
      hide Stretch, Distinct;
      Joined3(a, node, b);
      nodes := a + [node] + b;
      len := len + 1;
    }

    /** `listDelNode`. */
    method DelNode(node: Node<T>, ghost i: nat)
      requires Valid() && i < |nodes| && nodes[i] == node
      modifies this, nodes
      ensures Valid() && nodes == old(nodes)[..i] + old(nodes)[i + 1..]
      ensures forall n :: n in old(nodes) ==> n.value == old(n.value)
      ensures node.next == old(node.next) && node.prev == old(node.prev)
    {
      ghost var a, b := nodes[..i], nodes[i + 1..];
      PartedAround(nodes, i);
      if node.prev != null {
        node.prev.next := node.next;
      } else {
        head := node.next;
      }
      if node.next != null {
        node.next.prev := node.prev;
      } else {
        tail := node.prev;
      }
      assert Stretch(a, null, First(b, null));
      assert Stretch(b, Last(a, null), null);
      hide Stretch, Distinct;
      Joined(a, b);
      nodes := a + b;
      len := len - 1;
    }

    /** `listRotateTailToHead`. */
    method RotateTailToHead()
      requires Valid()
      modifies this, nodes
      ensures Valid()
      ensures nodes == if |old(nodes)| <= 1 then old(nodes)
        else [old(nodes)[|old(nodes)| - 1]] + old(nodes)[..|old(nodes)| - 1]
      ensures forall n :: n in nodes ==> n.value == old(n.value)
    {
      if len <= 1 {
        return;
      }
      ghost var a := nodes[..|nodes| - 1];
      PartedAround(nodes, |nodes| - 1);
      var last := tail;
      tail := last.prev;
      tail.next := null;
      head.prev := last;
      last.prev := null;
      last.next := head;
      head := last;
      assert Stretch(a, last, null);
      OneNode(last, null, First(a, null));
      hide Stretch, Distinct;
      Joined([last], a);
      nodes := [last] + a;
    }

    /** `listRotateHeadToTail`. */
    method RotateHeadToTail()
      requires Valid()
      modifies this, nodes
      ensures Valid()
      ensures nodes == if |old(nodes)| <= 1 then old(nodes) else old(nodes)[1..] + [old(nodes)[0]]
      ensures forall n :: n in nodes ==> n.value == old(n.value)
    {
      if len <= 1 {
        return;
      }
      ghost var b := nodes[1..];
      PartedAround(nodes, 0);
      var first := head;
      head := first.next;
      head.prev := null;
      tail.next := first;
      first.next := null;
      first.prev := tail;
      tail := first;
      assert Stretch(b, null, first);
      OneNode(first, Last(b, null), null);
      hide Stretch, Distinct;
      Joined(b, [first]);
      nodes := b + [first];
    }

    /** `listIndex`: counted from the head, or from the tail when negative. */
    method Index(index: int) returns (n: Node?<T>)
      requires Valid()
      ensures n == if 0 <= index < |nodes| then nodes[index]
        else if -|nodes| <= index < 0 then nodes[|nodes| + index] else null
    {
      var k := 0;
      if index < 0 {
        n := tail;
        while k < -index - 1 && n != null
          invariant 0 <= k <= -index - 1
          invariant n == if k < |nodes| then nodes[|nodes| - 1 - k] else null
        {
          n := n.prev;
          k := k + 1;
        }
      } else {
        n := head;
        while k < index && n != null
          invariant 0 <= k <= index
          invariant n == if k < |nodes| then nodes[k] else null
        {
          n := n.next;
          k := k + 1;
        }
      }
    }

    /** `listSearchKey`: the first node whose value matches. */
    method SearchKey(matches: T -> bool) returns (n: Node?<T>)
      requires Valid()
      ensures n == null ==> forall m :: m in nodes ==> !matches(m.value)
      ensures n != null ==> matches(n.value) && exists i :: 0 <= i < |nodes| && FirstMatch(nodes, n, i, matches)
    {
      var iter := new Iter(this, true);
      ghost var i := 0;
      while true
        invariant 0 <= i <= |nodes| && iter.forward
        invariant iter.next == First(nodes[i..], null)
        invariant forall j :: 0 <= j < i ==> !matches(nodes[j].value)
        decreases |nodes| - i
      {
        n := iter.Next();
        if n == null {
          return;
        }
        assert n == nodes[i];
        if matches(n.value) {
          assert FirstMatch(nodes, n, i, matches);
          return;
        }
        i := i + 1;
      }
    }

    /** `listDup`: a list of copies of the values, or nothing if one of them cannot be copied. */
    method Dup(dup: T -> Option<T>) returns (copy: List?<T>)
      requires Valid()
      ensures copy == null ==> exists n :: n in nodes && dup(n.value) == None
      ensures copy != null ==> fresh(copy) && copy.Valid() && |copy.nodes| == |nodes| && fresh(copy.nodes)
      ensures copy != null ==> Copied(nodes, |nodes|, copy.nodes, dup)
    {
      hide Stretch, Distinct, Copied, First, Last;
      var list := new List();
      var iter := new Iter(this, true);
      ghost var i := 0;
      CopiedNone(nodes, dup);
      assert nodes[0..] == nodes;
      FirstFrom(nodes, i);
      while iter.next != null
        invariant list.Valid() && iter.forward && fresh(list) && fresh(iter) && fresh(list.nodes)
        invariant 0 <= i <= |nodes| && iter.next == First(nodes[i..], null) && (iter.next == null <==> i == |nodes|)
        invariant Copied(nodes, i, list.nodes, dup)
        decreases |nodes| - i
      {
        NextNode(nodes, i);
        var n := iter.Next();
        match dup(n.value) {
          case None =>
            assert n in nodes;
            return null;
          case Some(v) =>
            CopiedSize(nodes, i, list.nodes, dup);
            list.AddCopy(n, v, nodes, i, dup);
            CopiedSize(nodes, i + 1, list.nodes, dup);
        }
        i := i + 1;
        FirstFrom(nodes, i);
      }
      CopiedSize(nodes, i, list.nodes, dup);
      copy := list;
    }

    /** Append the copy of the next value. */
    method AddCopy(n: Node<T>, v: T, ghost from: seq<Node<T>>, ghost i: nat, ghost dup: T -> Option<T>)
      requires Valid() && i < |from| && from[i] == n && dup(n.value) == Some(v) && Copied(from, i, nodes, dup)
      requires forall a, b :: 0 <= a < |from| && 0 <= b < |nodes| ==> from[a] != nodes[b]
      modifies this, nodes
      ensures Valid() && Copied(from, i + 1, nodes, dup)
      ensures |nodes| == i + 1 && fresh(nodes[i]) && nodes[..i] == old(nodes)
    {
      hide Stretch, Distinct;
      ghost var before := nodes;
      AddNodeTail(v);
      assert forall j :: 0 <= j < i ==> nodes[j] == before[j] && before[j] in before;
    }

    /** `listJoin`: all the nodes of `o`, themselves, at the end of this list; `o` is left empty. */
    method Join(o: List<T>)
      requires Valid() && o.Valid() && o != this
      requires Apart(nodes, o.nodes)
      modifies this, o, nodes, o.nodes
      ensures Valid() && o.Valid() && nodes == old(nodes) + old(o.nodes) && o.nodes == []
      ensures forall n :: n in nodes ==> n.value == old(n.value)
    {
      if o.len == 0 {
        assert nodes + o.nodes == nodes;
        return;
      }
      ghost var a, b := nodes, o.nodes;
      assert forall i, j :: 0 <= i < |a| && 0 <= j < |b| ==> a[i] != b[j];
      o.head.prev := tail;
      if tail != null {
        tail.next := o.head;
      } else {
        head := o.head;
      }
      tail := o.tail;
      len := len + o.len;
      assert Stretch(a, null, First(b, null));
      assert Stretch(b, Last(a, null), null);
      assert Stretch<T>([], null, null) && Distinct<T>([]);
      hide Stretch, Distinct;
      Joined(a, b);
      nodes := a + b;
      o.head, o.tail, o.len, o.nodes := null, null, 0, [];
    }
  }

  /** `listIter`. */
  class Iter<T> {
    var next: Node?<T>
    const forward: bool

    /** `listRewind` and `listRewindTail`. */
    constructor (list: List<T>, forward: bool)
      ensures this.forward == forward && next == if forward then list.head else list.tail
    {
      this.forward := forward;
      next := if forward then list.head else list.tail;
    }

    /** `listNext`. */
    method Next() returns (current: Node?<T>)
      modifies this
      ensures current == old(next)
      ensures current != null ==> next == if forward then current.next else current.prev
      ensures current == null ==> next == null
    {
      current := next;
      if current != null {
        next := if forward then current.next else current.prev;
      }
    }
  }

  /** The nodes that are not in `doomed`, in order. */
  function Kept<T>(s: seq<Node<T>>, doomed: set<Node<T>>): seq<Node<T>> {
    if s == [] then [] else Kept(s[..|s| - 1], doomed) + if s[|s| - 1] in doomed then [] else [s[|s| - 1]]
  }

  lemma KeptNext<T>(all: seq<Node<T>>, i: nat, doomed: set<Node<T>>)
    requires i < |all|
    ensures Kept(all[..i + 1], doomed) == Kept(all[..i], doomed) + if all[i] in doomed then [] else [all[i]]
  {
    assert all[..i + 1][..i] == all[..i];
  }

  lemma Views<T>(k: seq<Node<T>>, all: seq<Node<T>>, i: nat)
    requires i < |all|
    ensures var s := k + all[i..];
      && s[|k|] == all[i] && s[..|k|] == k && s[|k| + 1..] == all[i + 1..]
      && s == k + [all[i]] + all[i + 1..]
  {
  }

  /** A node points at the first of the nodes behind it, and at the last of those before it. */
  lemma NextNode<T>(s: seq<Node<T>>, i: nat)
    requires i < |s| && Distinct(s) && Stretch(s, null, null)
    ensures s[i].next == First(s[i + 1..], null) && s[i].prev == Last(s[..i], null)
    ensures First(s[i..], null) == s[i] && Last(s[..i + 1], null) == s[i]
  {
  }

  /** The nodes left at step `i` of an iteration. */
  function LeftAt<T>(all: seq<Node<T>>, i: nat, doomed: set<Node<T>>): (r: seq<Node<T>>)
    requires i <= |all|
  {
    Kept(all[..i], doomed) + all[i..]
  }

  lemma {:induction false} KeptFrom<T>(s: seq<Node<T>>, doomed: set<Node<T>>)
    ensures forall n :: n in Kept(s, doomed) ==> n in s
    decreases |s|
  {
    if s != [] {
      KeptFrom(s[..|s| - 1], doomed);
      assert s == s[..|s| - 1] + [s[|s| - 1]];
    }
  }

  lemma LeftFrom<T>(all: seq<Node<T>>, i: nat, doomed: set<Node<T>>)
    requires i <= |all|
    ensures forall n :: n in LeftAt(all, i, doomed) ==> n in all
  {
    KeptFrom(all[..i], doomed);
    assert all == all[..i] + all[i..];
  }

  /** One step of an iteration from the head. */
  method Visit<T>(list: List<T>, iter: Iter<T>, doomed: set<Node<T>>, ghost all: seq<Node<T>>, ghost i: nat)
    returns (node: Node<T>)
    requires list.Valid() && iter.forward && i < |all| && list.nodes == LeftAt(all, i, doomed) && iter.next == all[i]
    modifies list, list.nodes, iter
    ensures list.Valid() && list.nodes == LeftAt(all, i + 1, doomed)
    ensures iter.next == First(all[i + 1..], null) && node == all[i]
    ensures forall n :: n in old(list.nodes) ==> n.value == old(n.value)
  {
    hide Stretch, Distinct, Kept;
    ghost var k := Kept(all[..i], doomed);
    Views(k, all, i);
    NextNode(list.nodes, |k|);
    KeptNext(all, i, doomed);
    node := iter.Next();
    if node in doomed {
      list.DelNode(node, |k|);
    }
  }

  /** An iteration from the head that deletes some of the nodes it is handed visits every node once. */
  method Sweep<T>(list: List<T>, doomed: set<Node<T>>) returns (visited: seq<Node<T>>)
    requires list.Valid()
    modifies list, list.nodes
    ensures list.Valid() && visited == old(list.nodes) && list.nodes == Kept(old(list.nodes), doomed)
    ensures forall n :: n in visited ==> n.value == old(n.value)
  {
    hide Stretch, Distinct, LeftAt;
    ghost var all := list.nodes;
    var iter := new Iter(list, true);
    visited := [];
    ghost var i := 0;
    LeftEnds(all, doomed);
    while iter.next != null
      invariant list.Valid() && iter.forward && fresh(iter) && 0 <= i <= |all| && visited == all[..i]
      invariant list.nodes == LeftAt(all, i, doomed)
      invariant iter.next == First(all[i..], null)
      invariant forall n :: n in all ==> n.value == old(n.value)
      decreases |all| - i
    {
      LeftFrom(all, i, doomed);
      assert forall j :: 0 <= j < |list.nodes| ==> list.nodes[j] in all;
      var node := Visit(list, iter, doomed, all, i);
      visited := visited + [node];
      i := i + 1;
    }
  }

  lemma {:induction false} KeptFirst<T>(s: seq<Node<T>>, doomed: set<Node<T>>)
    requires s != []
    ensures Kept(s, doomed) == (if s[0] in doomed then [] else [s[0]]) + Kept(s[1..], doomed)
    decreases |s|
  {
    if |s| > 1 {
      var t := s[..|s| - 1];
      KeptFirst(t, doomed);
      assert t[1..] == s[1..][..|s| - 2];
    }
  }

  /** The nodes left when an iteration from the tail has the first `i` nodes before it. */
  function LeftBefore<T>(all: seq<Node<T>>, i: nat, doomed: set<Node<T>>): (r: seq<Node<T>>)
    requires i <= |all|
  {
    all[..i] + Kept(all[i..], doomed)
  }

  lemma LeftBeforeFrom<T>(all: seq<Node<T>>, i: nat, doomed: set<Node<T>>)
    requires i <= |all|
    ensures forall n :: n in LeftBefore(all, i, doomed) ==> n in all
  {
    KeptFrom(all[i..], doomed);
    assert all == all[..i] + all[i..];
  }

  lemma ViewsBefore<T>(k: seq<Node<T>>, all: seq<Node<T>>, i: nat)
    requires 0 < i <= |all|
    ensures var s := all[..i] + k;
      && s[i - 1] == all[i - 1] && s[..i - 1] == all[..i - 1] && s[i..] == k
      && s == all[..i - 1] + ([all[i - 1]] + k)
    ensures all[i - 1..][0] == all[i - 1] && all[i - 1..][1..] == all[i..]
  {
  }

  /** One step of an iteration from the tail. */
  method VisitBack<T>(list: List<T>, iter: Iter<T>, doomed: set<Node<T>>, ghost all: seq<Node<T>>, ghost i: nat)
    returns (node: Node<T>)
    requires list.Valid() && !iter.forward && 0 < i <= |all|
    requires list.nodes == LeftBefore(all, i, doomed) && iter.next == all[i - 1]
    modifies list, list.nodes, iter
    ensures list.Valid() && list.nodes == LeftBefore(all, i - 1, doomed)
    ensures iter.next == Last(all[..i - 1], null) && node == all[i - 1]
    ensures forall n :: n in old(list.nodes) ==> n.value == old(n.value)
  {
    hide Stretch, Distinct, Kept;
    ghost var k := Kept(all[i..], doomed);
    ViewsBefore(k, all, i);
    NextNode(list.nodes, i - 1);
    KeptFirst(all[i - 1..], doomed);
    node := iter.Next();
    if node in doomed {
      list.DelNode(node, i - 1);
      assert all[..i - 1] + ([] + k) == all[..i - 1] + k;
    }
  }

  function Backwards<T>(s: seq<T>): seq<T> {
    if s == [] then [] else [s[|s| - 1]] + Backwards(s[..|s| - 1])
  }

  /** The same from the tail: every node once, last to first. */
  method SweepBack<T>(list: List<T>, doomed: set<Node<T>>) returns (visited: seq<Node<T>>)
    requires list.Valid()
    modifies list, list.nodes
    ensures list.Valid() && visited == Backwards(old(list.nodes)) && list.nodes == Kept(old(list.nodes), doomed)
    ensures forall n :: n in old(list.nodes) ==> n.value == old(n.value)
  {
    hide Stretch, Distinct, LeftBefore, Kept;
    ghost var all := list.nodes;
    var iter := new Iter(list, false);
    visited := [];
    ghost var i := |all|;
    LeftBeforeEnds(all, doomed);
    while iter.next != null
      invariant list.Valid() && !iter.forward && fresh(iter) && 0 <= i <= |all|
      invariant Backwards(all) == visited + Backwards(all[..i])
      invariant list.nodes == LeftBefore(all, i, doomed)
      invariant iter.next == Last(all[..i], null)
      invariant forall n :: n in all ==> n.value == old(n.value)
      decreases i
    {
      LeftBeforeFrom(all, i, doomed);
      assert forall j :: 0 <= j < |list.nodes| ==> list.nodes[j] in all;
      assert all[..i][..i - 1] == all[..i - 1];
      var node := VisitBack(list, iter, doomed, all, i);
      visited := visited + [node];
      i := i - 1;
    }
  }

  lemma LeftBeforeEnds<T>(all: seq<Node<T>>, doomed: set<Node<T>>)
    ensures LeftBefore(all, |all|, doomed) == all && LeftBefore(all, 0, doomed) == Kept(all, doomed)
    ensures all[..|all|] == all && [] + Backwards(all) == Backwards(all)
  {
    assert all[|all|..] == [] && all[0..] == all && all[..0] == [];
    KeptNone(doomed);
  }

  lemma LeftEnds<T>(all: seq<Node<T>>, doomed: set<Node<T>>)
    ensures LeftAt(all, 0, doomed) == all && LeftAt(all, |all|, doomed) == Kept(all, doomed)
    ensures all[0..] == all && all[..|all|] == all && all[|all|..] == []
  {
    assert all[..0] == [];
    KeptNone(doomed);
    assert all[..|all|] == all;
  }

  lemma KeptNone<T>(doomed: set<Node<T>>)
    ensures Kept<T>([], doomed) == []
  {
  }

  ghost predicate FirstMatch<T>(s: seq<Node<T>>, n: Node<T>, i: nat, matches: T -> bool)
    requires i < |s|
    reads s
  {
    s[i] == n && forall j :: 0 <= j < i ==> !matches(s[j].value)
  }

  /** The values of `t` are the copies of the first `n` values of `s`. */
  ghost predicate Copied<T>(s: seq<Node<T>>, n: nat, t: seq<Node<T>>, dup: T -> Option<T>)
    requires n <= |s|
    reads s, t
  {
    |t| == n && forall i {:trigger s[i]} {:trigger t[i]} :: 0 <= i < n ==> dup(s[i].value) == Some(t[i].value)
  }

  lemma CopiedNone<T>(s: seq<Node<T>>, dup: T -> Option<T>)
    ensures Copied(s, 0, [], dup)
  {
  }

  lemma CopiedSize<T>(s: seq<Node<T>>, n: nat, t: seq<Node<T>>, dup: T -> Option<T>)
    requires n <= |s| && Copied(s, n, t, dup)
    ensures |t| == n
  {
  }

  lemma OneNode<T>(node: Node<T>, before: Node?<T>, after: Node?<T>)
    requires node.prev == before && node.next == after
    ensures Stretch([node], before, after) && Distinct([node])
  {
  }

  ghost predicate Apart<T>(s: seq<Node<T>>, t: seq<Node<T>>) {
    forall i, j :: 0 <= i < |s| && 0 <= j < |t| ==> s[i] != t[j]
  }

  /** Two stretches that point at each other make a list. */
  lemma Joined<T>(s: seq<Node<T>>, t: seq<Node<T>>)
    requires Distinct(s) && Distinct(t) && Apart(s, t)
    requires Stretch(s, null, First(t, null)) && Stretch(t, Last(s, null), null)
    ensures Distinct(s + t) && Stretch(s + t, null, null)
    ensures First(s + t, null) == First(s, First(t, null)) && Last(s + t, null) == Last(t, Last(s, null))
  {
    JoinStretches(s, t, null, null);
    hide Stretch;
  }

  lemma Joined3<T>(s: seq<Node<T>>, n: Node<T>, t: seq<Node<T>>)
    requires Distinct(s) && Distinct(t) && Apart(s, t) && Apart(s, [n]) && Apart([n], t)
    requires Stretch(s, null, n) && Stretch([n], Last(s, null), First(t, null)) && Stretch(t, n, null)
    ensures Distinct(s + [n] + t) && Stretch(s + [n] + t, null, null)
    ensures First(s + [n] + t, null) == First(s, n) && Last(s + [n] + t, null) == Last(t, n)
  {
    JoinStretches(s, [n], null, First(t, null));
    JoinStretches(s + [n], t, null, null);
    hide Stretch;
  }

  /** The neighbours of node `i` seen from before it and from behind it. */
  lemma Around<T>(s: seq<Node<T>>, i: nat)
    requires i < |s| && Distinct(s)
    ensures First(s[i..], null) == s[i] && Last(s[..i + 1], null) == s[i]
    ensures s[i] == First(s, null) <==> i == 0
    ensures s[i] == Last(s, null) <==> i == |s| - 1
  {
  }

  lemma FirstFrom<T>(s: seq<Node<T>>, i: nat)
    requires i <= |s|
    ensures First(s[i..], null) == null <==> i == |s|
  {
  }

  /** The ends of a list once `node` is put in front of its node `k`. */
  lemma Ends<T>(s: seq<Node<T>>, k: nat, node: Node<T>)
    requires k <= |s|
    ensures First(s[..k], node) == if k == 0 then node else First(s, null)
    ensures Last(s[k..], node) == if k == |s| then node else Last(s, null)
  {
  }

  /** The two parts of a list are stretches of their own. */
  lemma Parted<T>(s: seq<Node<T>>, k: nat)
    requires k <= |s| && Distinct(s) && Stretch(s, null, null)
    ensures Distinct(s[..k]) && Distinct(s[k..]) && Apart(s[..k], s[k..])
    ensures Stretch(s[..k], null, First(s[k..], null)) && Stretch(s[k..], Last(s[..k], null), null)
  {
    SplitStretch(s, k, null, null);
    hide Stretch;
  }

  lemma PartedAround<T>(s: seq<Node<T>>, i: nat)
    requires i < |s| && Distinct(s) && Stretch(s, null, null)
    ensures Distinct(s[..i]) && Distinct(s[i + 1..]) && Apart(s[..i], s[i + 1..])
    ensures Apart(s[..i], [s[i]]) && Apart([s[i]], s[i + 1..])
    ensures Stretch(s[..i], null, s[i]) && Stretch(s[i + 1..], s[i], null)
    ensures s[i].prev == Last(s[..i], null) && s[i].next == First(s[i + 1..], null)
  {
    SplitStretch(s, i, null, null);
    SplitStretch(s[i..], 1, Last(s[..i], null), null);
    assert s[i..][1..] == s[i + 1..];
  }
}
