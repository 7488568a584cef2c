/** Clients that wait for keys: the two indexes that mirror each other, and what serving a list does. */
module BlockedSpec {
  import opened Options

  type Client = nat
  type Key = string
  type Elem = string

  datatype Kind = List | ZSet | Stream | Module

  /** What a blocked client asked for: BLPOP and BRPOP have no target, BLMOVE has one. */
  datatype Info = Info(kind: Kind, target: Option<Key>, fromHead: bool, toHead: bool)

  datatype Value = ListVal(items: seq<Elem>) | OtherVal

  datatype Reply =
    | Popped(client: Client, key: Key, elem: Elem)
    | Moved(mover: Client, moved: Elem)
    | Failed(failed: Client)

  /** A node of a waiting list. Nodes are told apart by their number, as pointers would be. */
  datatype Node = Node(id: nat, client: Client)

  type Waiting = map<Key, seq<Node>>
  type Links = map<Client, map<Key, Node>>

  // ------------------------------------------------------------------
  // The indexes

  function At(w: Waiting, k: Key): seq<Node> {
    if k in w then w[k] else []
  }

  function ClientsOf(s: seq<Node>): (r: seq<Client>)
    ensures |r| == |s| && forall i {:trigger r[i]} :: 0 <= i < |s| ==> r[i] == s[i].client
  {
    seq(|s|, i requires 0 <= i < |s| => s[i].client)
  }

  /** An empty waiting list is removed from the dictionary. */
  function Put(w: Waiting, k: Key, s: seq<Node>): (r: Waiting)
    ensures At(r, k) == s
    ensures forall j :: j != k ==> At(r, j) == At(w, j)
  {
    if s == [] then w - {k} else w[k := s]
  }

  function Linked(l: Links, c: Client, k: Key): bool {
    c in l && k in l[c]
  }

  /** No list is empty or repeats a node, every node is the one its client knows, and every node a
      client knows is in its list. */
  ghost predicate Mirrored(w: Waiting, l: Links, next: nat) {
    && (forall k :: k in w ==> w[k] != [])
    && (forall k :: ListOk(At(w, k), k, l, next))
    && (forall c, k :: Linked(l, c, k) ==> l[c][k] in At(w, k) && l[c][k].client == c)
  }

  ghost predicate Distinct(s: seq<Node>) {
    forall i, j :: 0 <= i < j < |s| ==> s[i] != s[j]
  }

  ghost predicate ListOk(s: seq<Node>, k: Key, l: Links, next: nat) {
    Distinct(s) && forall n :: n in s ==> NodeOk(n, k, l, next)
  }

  predicate NodeOk(n: Node, k: Key, l: Links, next: nat) {
    n.id < next && Linked(l, n.client, k) && l[n.client][k] == n
  }

  /** A client is on the list of a key exactly once if it is linked to the key, and not at all otherwise. */
  lemma ListedOnce(w: Waiting, l: Links, next: nat, c: Client, k: Key)
    requires Mirrored(w, l, next)
    ensures multiset(ClientsOf(At(w, k)))[c] == if Linked(l, c, k) then 1 else 0
  {
    var s := At(w, k);
    assert ListOk(s, k, l, next);
    if Linked(l, c, k) {
      var i :| 0 <= i < |s| && s[i] == l[c][k];
      hide At, Mirrored;
      forall j | 0 <= j < |s| && j != i ensures s[j].client != c {
        assert s[j] in s;
      }
      CountOne(ClientsOf(s), i);
    } else {
      hide At, Mirrored;
      forall j | 0 <= j < |s| ensures ClientsOf(s)[j] != c {
        assert s[j] in s;
      }
    }
  }

  lemma CountOne(t: seq<Client>, i: nat)
    requires i < |t| && forall j :: 0 <= j < |t| && j != i ==> t[j] != t[i]
    ensures multiset(t)[t[i]] == 1
  {
    assert t == t[..i] + [t[i]] + t[i + 1..];
    assert t[i] !in t[..i] && t[i] !in t[i + 1..];
  }

  // ------------------------------------------------------------------
  // Changes to the indexes

  function Link(l: Links, c: Client, k: Key, n: Node): Links {
    l[c := (if c in l then l[c] else map[])[k := n]]
  }

  lemma AddKeepsMirror(w: Waiting, l: Links, next: nat, c: Client, k: Key)
    requires Mirrored(w, l, next) && !Linked(l, c, k)
    ensures var n := Node(next, c);
      Mirrored(Put(w, k, At(w, k) + [n]), Link(l, c, k, n), next + 1)
  {
    var n := Node(next, c);
    var w', l' := Put(w, k, At(w, k) + [n]), Link(l, c, k, n);
    forall j ensures ListOk(At(w', j), j, l', next + 1) {
      assert ListOk(At(w, j), j, l, next);
      AddToList(At(w, j), j, l, next, c, k);
    }
    forall d, j | Linked(l', d, j) ensures l'[d][j] in At(w', j) && l'[d][j].client == d {
      if d == c && j == k {
        assert (At(w, k) + [n])[|At(w, k)|] == n;
      } else {
        assert Linked(l, d, j);
      }
    }
  }

  lemma AddToList(s: seq<Node>, j: Key, l: Links, next: nat, c: Client, k: Key)
    requires ListOk(s, j, l, next) && !Linked(l, c, k)
    ensures var n := Node(next, c);
      ListOk(if j == k then s + [n] else s, j, Link(l, c, k, n), next + 1)
  {
    var n := Node(next, c);
    var s' := if j == k then s + [n] else s;
    assert forall x :: x in s' ==> x in s || (j == k && x == n);
    assert forall i :: 0 <= i < |s| ==> s[i] in s;
    assert Distinct(s');
  }

  /** `listRotateHeadToTail`. */
  function Rotate<T>(s: seq<T>): seq<T> {
    if s == [] then [] else s[1..] + [s[0]]
  }

  lemma RotateContents(s: seq<Node>)
    requires Distinct(s)
    ensures Distinct(Rotate(s)) && forall x :: x in Rotate(s) <==> x in s
  {
    if s != [] {
      assert s == [s[0]] + s[1..];
    }
  }

  lemma RotateKeepsMirror(w: Waiting, l: Links, next: nat, k: Key)
    requires Mirrored(w, l, next)
    ensures Mirrored(Put(w, k, Rotate(At(w, k))), l, next)
  {
    assert ListOk(At(w, k), k, l, next);
    RotateContents(At(w, k));
    var w' := Put(w, k, Rotate(At(w, k)));
    hide Rotate;
    forall j ensures ListOk(At(w', j), j, l, next) {
      assert ListOk(At(w, j), j, l, next);
    }
  }

  /** A list without one of its nodes. */
  function Unlinked(s: seq<Node>, n: Node): seq<Node> {
    if s == [] then [] else if s[0] == n then s[1..] else [s[0]] + Unlinked(s[1..], n)
  }

  lemma PrependDistinct(n: Node, r: seq<Node>)
    requires Distinct(r) && n !in r
    ensures Distinct([n] + r)
  {
    assert forall i :: 0 <= i < |r| ==> r[i] in r;
  }

  lemma {:induction false} UnlinkedContents(s: seq<Node>, n: Node)
    requires Distinct(s)
    ensures var r := Unlinked(s, n);
      Distinct(r) && forall x :: x in r <==> x in s && x != n
    decreases |s|
  {
    if s != [] {
      assert s == [s[0]] + s[1..];
      assert forall x :: x in s[1..] ==> x != s[0];
      UnlinkedContents(s[1..], n);
      if s[0] != n {
        PrependDistinct(s[0], Unlinked(s[1..], n));
      }
    }
  }

  /** All the nodes of one client taken out. */
  ghost predicate Removed(w: Waiting, w': Waiting, l: Links, c: Client) {
    && (forall k :: k in w' ==> w'[k] != [])
    && forall k :: At(w', k) == if Linked(l, c, k) then Unlinked(At(w, k), l[c][k]) else At(w, k)
  }

  lemma ListRemove(s: seq<Node>, k: Key, l: Links, next: nat, c: Client)
    requires ListOk(s, k, l, next) && (Linked(l, c, k) ==> l[c][k].client == c)
    ensures var r := if Linked(l, c, k) then Unlinked(s, l[c][k]) else s;
      (forall x :: x in r <==> x in s && x.client != c) && ListOk(r, k, l - {c}, next)
  {
    if Linked(l, c, k) {
      UnlinkedContents(s, l[c][k]);
    }
    hide Unlinked, Distinct;
  }

  lemma RemovedAt(w: Waiting, w': Waiting, l: Links, next: nat, c: Client, k: Key)
    requires Mirrored(w, l, next) && Removed(w, w', l, c)
    ensures forall x :: x in At(w', k) <==> x in At(w, k) && x.client != c
    ensures ListOk(At(w', k), k, l - {c}, next)
  {
    hide ListOk, Unlinked, At;
    assert ListOk(At(w, k), k, l, next);
    ListRemove(At(w, k), k, l, next, c);
  }

  lemma RemoveKeepsMirror(w: Waiting, w': Waiting, l: Links, next: nat, c: Client)
    requires Mirrored(w, l, next) && Removed(w, w', l, c)
    ensures Mirrored(w', l - {c}, next)
  {
    forall k ensures ListOk(At(w', k), k, l - {c}, next) {
      RemovedAt(w, w', l, next, c, k);
    }
    forall d, k | Linked(l - {c}, d, k) ensures (l - {c})[d][k] in At(w', k) && (l - {c})[d][k].client == d {
      assert Linked(l, d, k);
      RemovedAt(w, w', l, next, c, k);
    }
  }

  /** The clients that remain, in order. */
  function Except(q: seq<Client>, c: Client): seq<Client> {
    if q == [] then [] else if q[0] == c then Except(q[1..], c) else [q[0]] + Except(q[1..], c)
  }

  lemma {:induction false} UnlinkedClients(s: seq<Node>, n: Node)
    requires Distinct(s) && forall x :: x in s ==> (x.client == n.client <==> x == n)
    ensures ClientsOf(Unlinked(s, n)) == Except(ClientsOf(s), n.client)
    decreases |s|
  {
    if s != [] {
      var t := ClientsOf(s);
      assert t[1..] == ClientsOf(s[1..]);
      UnlinkedClients(s[1..], n);
      assert forall i :: 0 <= i < |s| ==> s[i] in s;
      if s[0] == n {
        ExceptAbsent(t[1..], n.client);
      }
    }
  }

  lemma {:induction false} ExceptAbsent(q: seq<Client>, c: Client)
    requires forall i :: 0 <= i < |q| ==> q[i] != c
    ensures Except(q, c) == q
  {
    if q != [] { ExceptAbsent(q[1..], c); }
  }

  /** Taking a client out leaves every other client where it was. */
  lemma RemovedClients(w: Waiting, w': Waiting, l: Links, next: nat, c: Client, k: Key)
    requires Mirrored(w, l, next) && Removed(w, w', l, c)
    ensures ClientsOf(At(w', k)) == Except(ClientsOf(At(w, k)), c)
  {
    var s := At(w, k);
    assert ListOk(s, k, l, next);
    assert forall i :: 0 <= i < |s| ==> s[i] in s;
    if Linked(l, c, k) {
      UnlinkedClients(s, l[c][k]);
    } else {
      ExceptAbsent(ClientsOf(s), c);
    }
  }
}
