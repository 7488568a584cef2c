/** What serving the clients of one list does to the queue and to the lists. */
module BlockedServe {
  import opened Options
  import opened BlockedSpec

  type Db = map<Key, Value>

  function Items(db: Db, k: Key): seq<Elem> {
    if k in db && db[k].ListVal? then db[k].items else []
  }

  /** `listTypePop`. */
  function PopElem(s: seq<Elem>, fromHead: bool): Elem
    requires s != []
  {
    if fromHead then s[0] else s[|s| - 1]
  }

  function PopRest(s: seq<Elem>, fromHead: bool): seq<Elem>
    requires s != []
  {
    if fromHead then s[1..] else s[..|s| - 1]
  }

  /** `listTypePush`. */
  function PushElem(s: seq<Elem>, x: Elem, toHead: bool): seq<Elem> {
    if toHead then [x] + s else s + [x]
  }

  /** Pop for one client and serve it; a BLMOVE whose destination is not a list puts the element back. */
  function ServeDb(db: Db, key: Key, i: Info): Db
    requires Items(db, key) != []
  {
    var s := Items(db, key);
    var v, rest := PopElem(s, i.fromHead), PopRest(s, i.fromHead);
    var popped := db[key := ListVal(rest)];
    match i.target
    case None => popped
    case Some(d) =>
      if d in popped && popped[d].OtherVal? then popped[key := ListVal(PushElem(rest, v, i.fromHead))]
      else popped[d := ListVal(PushElem(Items(popped, d), v, i.toHead))]
  }

  function ServeReply(db: Db, key: Key, c: Client, i: Info): Reply
    requires Items(db, key) != []
  {
    var v := PopElem(Items(db, key), i.fromHead);
    match i.target
    case None => Popped(c, key, v)
    case Some(d) => if d in db && db[d].OtherVal? then Failed(c) else Moved(c, v)
  }

  datatype Served = Served(queue: seq<Client>, db: Db, served: seq<Client>, replies: seq<Reply>)

  /** The loop of `serveClientsBlockedOnListKey` for `n` more clients. */
  function Serve(info: map<Client, Info>, q: seq<Client>, db: Db, key: Key, n: nat): Served
    requires n <= |q| && (forall c :: c in q ==> c in info)
    decreases n
  {
    if n == 0 then Served(q, db, [], []) else
    var c := q[0];
    if info[c].kind != List then Serve(info, Rotate(q), db, key, n - 1)
    else if Items(db, key) == [] then Served(q, db, [], [])
    else
      var r := Serve(info, q[1..], ServeDb(db, key, info[c]), key, n - 1);
      r.(served := [c] + r.served, replies := [ServeReply(db, key, c, info[c])] + r.replies)
  }

  // ------------------------------------------------------------------
  // First come, first served

  /** The clients that wait for a list, in order. */
  function ListClients(info: map<Client, Info>, q: seq<Client>): (r: seq<Client>)
    requires forall c :: c in q ==> c in info
    ensures forall c :: c in r ==> c in info
  {
    if q == [] then [] else
    (if info[q[0]].kind == List then [q[0]] else []) + ListClients(info, q[1..])
  }

  function Min(a: nat, b: nat): nat {
    if a < b then a else b
  }

  ghost predicate Plain(info: map<Client, Info>, q: seq<Client>) {
    forall c :: c in q ==> c in info && (info[c].kind == List ==> info[c].target == None)
  }

  /** Plain pops serve the first clients of the queue that wait for a list, as many as there are
      elements. */
  lemma {:induction false} FirstComeFirstServed(info: map<Client, Info>, q: seq<Client>, db: Db, key: Key, n: nat)
    requires n <= |q| && Plain(info, q)
    ensures var r := Serve(info, q, db, key, n);
      var waiting := ListClients(info, q[..n]);
      && r.served == waiting[..Min(|Items(db, key)|, |waiting|)]
      && |Items(r.db, key)| == |Items(db, key)| - |r.served|
    decreases n
  {
    hide ServeDb, ServeReply, Rotate, ListClients;
    if n == 0 {
      NoListClients(info);
    } else {
      var c := q[0];
      FirstListClient(info, q, n);
      if info[c].kind != List {
        RotatePrefix(q, n);
        FirstComeFirstServed(info, Rotate(q), db, key, n - 1);
      } else if Items(db, key) != [] {
        assert q[1..][..n - 1] == q[1..n];
        PlainServe(db, key, c, info[c]);
        FirstComeFirstServed(info, q[1..], ServeDb(db, key, info[c]), key, n - 1);
      }
    }
  }

  lemma NoListClients(info: map<Client, Info>)
    ensures ListClients(info, []) == []
  {
  }

  lemma FirstListClient(info: map<Client, Info>, q: seq<Client>, n: nat)
    requires 0 < n <= |q| && forall c :: c in q ==> c in info
    ensures ListClients(info, q[..n]) == (if info[q[0]].kind == List then [q[0]] else []) + ListClients(info, q[1..n])
  {
    assert q[..n][1..] == q[1..n];
  }

  lemma RotatePrefix(q: seq<Client>, n: nat)
    requires 0 < n <= |q|
    ensures |Rotate(q)| == |q| && Rotate(q)[..n - 1] == q[1..n]
    ensures forall c :: c in Rotate(q) <==> c in q
  {
    assert q == [q[0]] + q[1..];
  }

  lemma PlainServe(db: Db, key: Key, c: Client, i: Info)
    requires Items(db, key) != [] && i.target == None
    ensures Items(ServeDb(db, key, i), key) == PopRest(Items(db, key), i.fromHead)
    ensures ServeReply(db, key, c, i) == Popped(c, key, PopElem(Items(db, key), i.fromHead))
  {
  }

  /** Every client that is served gets its reply, in the order of service. */
  lemma {:induction false} ServedGetReplies(info: map<Client, Info>, q: seq<Client>, db: Db, key: Key, n: nat)
    requires n <= |q| && forall c :: c in q ==> c in info
    ensures var r := Serve(info, q, db, key, n);
      && |r.replies| == |r.served|
      && forall j :: 0 <= j < |r.replies| ==> To(r.replies[j]) == r.served[j]
    decreases n
  {
    hide ServeDb;
    if n > 0 {
      var c := q[0];
      if info[c].kind != List {
        ServedGetReplies(info, Rotate(q), db, key, n - 1);
      } else if Items(db, key) != [] {
        ServedGetReplies(info, q[1..], ServeDb(db, key, info[c]), key, n - 1);
      }
    }
  }

  function To(r: Reply): Client {
    match r
    case Popped(c, _, _) => c
    case Moved(c, _) => c
    case Failed(c) => c
  }

  /** After the loop over the whole queue, either the list is empty or no client of the queue waits for
      a list. */
  lemma {:induction false} NobodyIsForgotten(info: map<Client, Info>, q: seq<Client>, db: Db, key: Key, n: nat)
    requires n <= |q| && forall c :: c in q ==> c in info
    requires forall j :: n <= j < |q| ==> info[q[j]].kind != List
    ensures var r := Serve(info, q, db, key, n);
      Items(r.db, key) == [] || forall c :: c in r.queue ==> c in info && info[c].kind != List
    decreases n
  {
    hide ServeDb, ServeReply;
    if n > 0 {
      var c := q[0];
      if info[c].kind != List {
        NobodyIsForgotten(info, Rotate(q), db, key, n - 1);
      } else if Items(db, key) != [] {
        NobodyIsForgotten(info, q[1..], ServeDb(db, key, info[c]), key, n - 1);
      }
    }
  }

  // ------------------------------------------------------------------
  // Ends of lists

  /** `s` is `t` with `x` at one end. */
  ghost predicate AtEnd(s: seq<Elem>, x: Elem, t: seq<Elem>, head: bool) {
    s == if head then [x] + t else t + [x]
  }

  /** What a client is told is what happened to the lists. A pop gives the element at the end it asked for. A move takes
      one from that end and puts it at the other end asked for, also within one list. A move that fails leaves
      everything as it was. */
  ghost predicate Happened(db: Db, db': Db, key: Key, i: Info, x: Reply) {
    match x
    case Popped(_, k, v) =>
      && k == key && i.target == None && AtEnd(Items(db, key), v, Items(db', key), i.fromHead)
      && db' == db[key := ListVal(Items(db', key))]
    case Moved(_, v) =>
      && i.target.Some? && !(i.target.value in db && db[i.target.value].OtherVal?)
      && var d := i.target.value;
         exists rest ::
           && AtEnd(Items(db, key), v, rest, i.fromHead)
           && AtEnd(Items(db', d), v, if d == key then rest else Items(db, d), i.toHead)
           && (d != key ==> Items(db', key) == rest)
           && db' == db[key := ListVal(Items(db', key))][d := ListVal(Items(db', d))]
    case Failed(_) =>
      i.target.Some? && i.target.value in db && db[i.target.value].OtherVal? && db' == db
  }

  lemma PopEnd(s: seq<Elem>, head: bool)
    requires s != []
    ensures AtEnd(s, PopElem(s, head), PopRest(s, head), head)
    ensures PushElem(PopRest(s, head), PopElem(s, head), head) == s
  {
  }

  lemma PushEnd(s: seq<Elem>, x: Elem, head: bool)
    ensures AtEnd(PushElem(s, x, head), x, s, head)
  {
  }

  lemma ServeHappened(db: Db, key: Key, c: Client, i: Info)
    requires Items(db, key) != []
    ensures Happened(db, ServeDb(db, key, i), key, i, ServeReply(db, key, c, i))
    ensures To(ServeReply(db, key, c, i)) == c
  {
    var s := Items(db, key);
    PopEnd(s, i.fromHead);
    var v, rest := PopElem(s, i.fromHead), PopRest(s, i.fromHead);
    hide PopElem, PopRest;
    if i.target.Some? {
      var d := i.target.value;
      PushEnd(if d == key then rest else Items(db, d), v, i.toHead);
      hide PushElem, AtEnd;
      var db' := ServeDb(db, key, i);
      if d in db && db[d].OtherVal? {
        assert db' == db;
      } else {
        assert db' == db[key := ListVal(Items(db', key))][d := ListVal(Items(db', d))];
      }
    }
  }

  /** One reply after the other, each about the lists as the last one left them. */
  ghost predicate HappenedAll(info: map<Client, Info>, db: Db, db': Db, key: Key, xs: seq<Reply>)
    decreases |xs|
  {
    if xs == [] then db' == db
    else
      To(xs[0]) in info &&
      exists mid :: Happened(db, mid, key, info[To(xs[0])], xs[0]) && HappenedAll(info, mid, db', key, xs[1..])
  }

  /** All that a round of service answers is what happened, in this order. */
  lemma {:induction false} ServeTells(info: map<Client, Info>, q: seq<Client>, db: Db, key: Key, n: nat)
    requires n <= |q| && forall c :: c in q ==> c in info
    ensures var r := Serve(info, q, db, key, n); HappenedAll(info, db, r.db, key, r.replies)
    decreases n
  {
    hide ServeDb, ServeReply, Happened;
    if n > 0 {
      var c := q[0];
      if info[c].kind != List {
        ServeTells(info, Rotate(q), db, key, n - 1);
      } else if Items(db, key) != [] {
        var mid := ServeDb(db, key, info[c]);
        ServeTells(info, q[1..], mid, key, n - 1);
        ServeHappened(db, key, c, info[c]);
        var r := Serve(info, q, db, key, n);
        assert r.replies[1..] == Serve(info, q[1..], mid, key, n - 1).replies;
      }
    }
  }

  /** Every list client pops, and from the same end. */
  ghost predicate AllPop(info: map<Client, Info>, q: seq<Client>, head: bool) {
    forall c :: c in q ==> c in info && (info[c].kind == List ==> info[c].target == None && info[c].fromHead == head)
  }

  /** The `j`-th element from an end. */
  function FromEnd(s: seq<Elem>, j: nat, head: bool): Elem
    requires j < |s|
  {
    if head then s[j] else s[|s| - 1 - j]
  }

  /** The replies are the elements of `s` from one end, and the list is what is left of it. */
  ghost predicate InOrder(r: Served, s: seq<Elem>, key: Key, head: bool) {
    && |r.replies| == |r.served| <= |s|
    && (forall j :: 0 <= j < |r.replies| ==> r.replies[j] == Popped(r.served[j], key, FromEnd(s, j, head)))
    && Items(r.db, key) == if head then s[|r.replies|..] else s[..|s| - |r.replies|]
  }

  lemma InOrderNext(r: Served, s: seq<Elem>, c: Client, key: Key, head: bool)
    requires s != [] && InOrder(r, if head then s[1..] else s[..|s| - 1], key, head)
    ensures
      var x := Popped(c, key, FromEnd(s, 0, head));
      InOrder(r.(served := [c] + r.served, replies := [x] + r.replies), s, key, head)
  {
  }

  /** Clients that pop from the same end get the elements in the order of the list from there, and what is left keeps
      its order. */
  lemma {:induction false} PopsInOrder(info: map<Client, Info>, q: seq<Client>, db: Db, key: Key, n: nat, head: bool)
    requires n <= |q| && AllPop(info, q, head)
    ensures InOrder(Serve(info, q, db, key, n), Items(db, key), key, head)
    decreases n
  {
    if n > 0 {
      var c, s := q[0], Items(db, key);
      hide InOrder, ServeDb, ServeReply, Rotate;
      if info[c].kind != List {
        RotatePrefix(q, n);
        PopsInOrder(info, Rotate(q), db, key, n - 1, head);
      } else if s != [] {
        var db' := ServeDb(db, key, info[c]);
        PopsInOrder(info, q[1..], db', key, n - 1, head);
        PlainServe(db, key, c, info[c]);
        InOrderNext(Serve(info, q[1..], db', key, n - 1), s, c, key, head);
      } else {
        NoneInOrder(q, db, key, head);
      }
    } else {
      NoneInOrder(q, db, key, head);
    }
  }

  lemma NoneInOrder(q: seq<Client>, db: Db, key: Key, head: bool)
    ensures InOrder(Served(q, db, [], []), Items(db, key), key, head)
  {
  }

  // ------------------------------------------------------------------
  // No element is lost or delivered twice

  /** The elements of all the lists with the given keys. */
  function Stock(db: Db, keys: seq<Key>): multiset<Elem> {
    if keys == [] then multiset{} else multiset(Items(db, keys[0])) + Stock(db, keys[1..])
  }

  lemma {:induction false} StockElsewhere(db: Db, keys: seq<Key>, k: Key, v: Value)
    requires k !in keys
    ensures Stock(db[k := v], keys) == Stock(db, keys)
  {
    if keys != [] {
      StockElsewhere(db, keys[1..], k, v);
    }
  }

  ghost predicate NoRepeats(keys: seq<Key>) {
    forall i, j :: 0 <= i < j < |keys| ==> keys[i] != keys[j]
  }

  lemma StockHead(db: Db, keys: seq<Key>)
    requires keys != []
    ensures Stock(db, keys) == multiset(Items(db, keys[0])) + Stock(db, keys[1..])
  {
  }

  lemma Swap(a: multiset<Elem>, b: multiset<Elem>, m: multiset<Elem>)
    ensures (a + m) + b == (b + m) + a
  {
  }

  /** Replacing one list changes the stock by exactly the difference of the lists. */
  lemma {:induction false} StockUpdate(db: Db, keys: seq<Key>, k: Key, v: Value)
    requires k in keys && v.ListVal? && NoRepeats(keys)
    ensures Stock(db[k := v], keys) + multiset(Items(db, k)) == Stock(db, keys) + multiset(v.items)
  {
    var t := keys[1..];
    assert keys == [keys[0]] + t;
    StockHead(db, keys);
    StockHead(db[k := v], keys);
    hide Stock;
    if keys[0] == k {
      assert k !in t;
      StockElsewhere(db, t, k, v);
      assert Items(db[k := v], k) == v.items;
      Swap(multiset(v.items), multiset(Items(db, k)), Stock(db, t));
    } else {
      StockUpdate(db, t, k, v);
      assert Items(db[k := v], keys[0]) == Items(db, keys[0]);
      AddBoth(multiset(Items(db, keys[0])), Stock(db[k := v], t), multiset(Items(db, k)), Stock(db, t),
              multiset(v.items));
    }
  }

  lemma Cancel(a: multiset<Elem>, b: multiset<Elem>, x: multiset<Elem>, y: multiset<Elem>, z: multiset<Elem>)
    requires a + x == b + y
    ensures x == y + z ==> a + z == b
    ensures y == x + z ==> a == b + z
  {
    forall e ensures a[e] + x[e] == b[e] + y[e] {
      assert (a + x)[e] == (b + y)[e];
    }
    if x == y + z {
      assert forall e :: x[e] == y[e] + z[e];
    }
    if y == x + z {
      assert forall e :: y[e] == x[e] + z[e];
    }
  }

  lemma AddBoth(m: multiset<Elem>, a: multiset<Elem>, x: multiset<Elem>, b: multiset<Elem>, y: multiset<Elem>)
    requires a + x == b + y
    ensures (m + a) + x == (m + b) + y
  {
    assert (m + a) + x == m + (a + x);
    assert (m + b) + y == m + (b + y);
  }

  /** The element that leaves the lists with a reply. */
  function Taken(r: Reply): multiset<Elem> {
    if r.Popped? then multiset{r.elem} else multiset{}
  }

  function TakenAll(rs: seq<Reply>): multiset<Elem> {
    if rs == [] then multiset{} else Taken(rs[0]) + TakenAll(rs[1..])
  }

  lemma PopSplits(s: seq<Elem>, fromHead: bool)
    requires s != []
    ensures multiset(s) == multiset(PopRest(s, fromHead)) + multiset{PopElem(s, fromHead)}
  {
    if fromHead {
      assert s == [s[0]] + s[1..];
    } else {
      assert s == s[..|s| - 1] + [s[|s| - 1]];
    }
  }

  lemma PushJoins(s: seq<Elem>, x: Elem, toHead: bool)
    ensures multiset(PushElem(s, x, toHead)) == multiset(s) + multiset{x}
  {
  }

  /** Popping takes one element out of the lists. */
  lemma PopStock(db: Db, keys: seq<Key>, key: Key, fromHead: bool)
    requires Items(db, key) != [] && key in keys && NoRepeats(keys)
    ensures Stock(db[key := ListVal(PopRest(Items(db, key), fromHead))], keys)
          + multiset{PopElem(Items(db, key), fromHead)} == Stock(db, keys)
  {
    hide Stock, PopElem, PopRest, NoRepeats;
    var s := Items(db, key);
    var v, rest := PopElem(s, fromHead), PopRest(s, fromHead);
    PopSplits(s, fromHead);
    StockUpdate(db, keys, key, ListVal(rest));
    Cancel(Stock(db[key := ListVal(rest)], keys), Stock(db, keys), multiset(s), multiset(rest), multiset{v});
  }

  /** Pushing puts one element into the lists. */
  lemma PushStock(db: Db, keys: seq<Key>, d: Key, v: Elem, toHead: bool)
    requires d in keys && NoRepeats(keys)
    ensures Stock(db[d := ListVal(PushElem(Items(db, d), v, toHead))], keys) == Stock(db, keys) + multiset{v}
  {
    hide Stock, PushElem, NoRepeats;
    var s := Items(db, d);
    var t := PushElem(s, v, toHead);
    PushJoins(s, v, toHead);
    StockUpdate(db, keys, d, ListVal(t));
    Cancel(Stock(db[d := ListVal(t)], keys), Stock(db, keys), multiset(s), multiset(t), multiset{v});
  }

  /** Serving one client takes at most the element it is sent out of the lists. */
  lemma ServeOneConserves(db: Db, keys: seq<Key>, key: Key, c: Client, i: Info)
    requires Items(db, key) != [] && key in keys && (i.target.Some? ==> i.target.value in keys)
    requires NoRepeats(keys)
    ensures Stock(ServeDb(db, key, i), keys) + Taken(ServeReply(db, key, c, i)) == Stock(db, keys)
  {
    hide Stock, PopElem, PopRest, PushElem, NoRepeats;
    var s := Items(db, key);
    var v, rest := PopElem(s, i.fromHead), PopRest(s, i.fromHead);
    var popped := db[key := ListVal(rest)];
    PopStock(db, keys, key, i.fromHead);
    if i.target.Some? {
      var d := i.target.value;
      if d in popped && popped[d].OtherVal? {
        PushStock(popped, keys, key, v, i.fromHead);
      } else {
        PushStock(popped, keys, d, v, i.toHead);
      }
    }
  }

  lemma {:induction false} ServeConserves(
    info: map<Client, Info>, q: seq<Client>, db: Db, key: Key, n: nat, keys: seq<Key>)
    requires n <= |q| && key in keys
    requires forall c :: c in q ==> c in info && (info[c].target.Some? ==> info[c].target.value in keys)
    requires NoRepeats(keys)
    ensures var r := Serve(info, q, db, key, n);
      Stock(r.db, keys) + TakenAll(r.replies) == Stock(db, keys)
    decreases n
  {
    hide Stock, ServeDb, ServeReply, Taken, Rotate, NoRepeats;
    if n > 0 {
      var c := q[0];
      if info[c].kind != List {
        RotatePrefix(q, n);
        ServeConserves(info, Rotate(q), db, key, n - 1, keys);
      } else if Items(db, key) != [] {
        var i := info[c];
        ServeOneConserves(db, keys, key, c, i);
        ServeConserves(info, q[1..], ServeDb(db, key, i), key, n - 1, keys);
        var r := Serve(info, q[1..], ServeDb(db, key, i), key, n - 1);
        var x := ServeReply(db, key, c, i);
        assert ([x] + r.replies)[1..] == r.replies;
      }
    }
  }

  /** The keys that serving can touch: those that exist and the destinations of moves. */
  ghost predicate Covers(keys: seq<Key>, db: Db, info: map<Client, Info>) {
    && NoRepeats(keys)
    && (forall k :: k in db ==> k in keys)
    && forall c :: c in info && info[c].target.Some? ==> info[c].target.value in keys
  }

  lemma OneCovered(db: Db, key: Key, info: map<Client, Info>, c: Client, keys: seq<Key>)
    requires c in info && Covers(keys, db, info) && key in keys && Items(db, key) != []
    ensures Covers(keys, ServeDb(db, key, info[c]), info)
  {
    hide PopElem, PopRest, PushElem, NoRepeats;
  }

  lemma {:induction false} ServeCovered(
    info: map<Client, Info>, q: seq<Client>, db: Db, key: Key, n: nat, keys: seq<Key>)
    requires n <= |q| && (forall c :: c in q ==> c in info) && Covers(keys, db, info) && key in keys
    ensures Covers(keys, Serve(info, q, db, key, n).db, info)
    decreases n
  {
    hide Covers, ServeDb, ServeReply, Rotate;
    if n > 0 {
      var c := q[0];
      if info[c].kind != List {
        RotatePrefix(q, n);
        ServeCovered(info, Rotate(q), db, key, n - 1, keys);
      } else if Items(db, key) != [] {
        OneCovered(db, key, info, c, keys);
        ServeCovered(info, q[1..], ServeDb(db, key, info[c]), key, n - 1, keys);
      }
    }
  }

  lemma {:induction false} TakenAppend(a: seq<Reply>, b: seq<Reply>)
    ensures TakenAll(a + b) == TakenAll(a) + TakenAll(b)
    decreases |a|
  {
    if a == [] {
      assert a + b == b;
    } else {
      assert (a + b)[1..] == a[1..] + b;
      TakenAppend(a[1..], b);
    }
  }

  lemma {:induction false} StockWithout(db: Db, keys: seq<Key>, k: Key)
    requires Items(db, k) == []
    ensures Stock(db - {k}, keys) == Stock(db, keys)
    decreases |keys|
  {
    if keys != [] {
      StockWithout(db, keys[1..], k);
      assert Items(db - {k}, keys[0]) == Items(db, keys[0]);
    }
  }
}

