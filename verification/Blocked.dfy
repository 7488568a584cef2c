/** The state that blocked.c keeps about blocked clients, and the scheduler that serves them. */
module Blocked {
  import opened Options
  import opened BlockedSpec
  import opened BlockedServe

  // ------------------------------------------------------------------
  // What holds between operations

  /** The two indexes mirror each other and know exactly the blocked clients. */
  ghost predicate Indexed(w: Waiting, l: Links, next: nat, info: map<Client, Info>) {
    && Mirrored(w, l, next)
    && l.Keys == info.Keys
    && forall c :: c in l ==> l[c] != map[]
  }

  function OfKind(info: map<Client, Info>, kind: Kind): set<Client> {
    set c | c in info && info[c].kind == kind
  }

  /** The counters are the numbers of blocked clients. */
  ghost predicate Counted(info: map<Client, Info>, blocked: int, byKind: map<Kind, int>) {
    && blocked == |info|
    && forall k: Kind :: k in byKind && byKind[k] == |OfKind(info, k)|
  }

  /** The dictionary of ready keys holds exactly the keys that are queued, and none is queued twice. */
  ghost predicate Queued(ready: set<Key>, queue: seq<Key>) {
    NoRepeats(queue) && forall k :: k in ready <==> k in queue
  }

  /** No list in the database is empty, except one that is being served. */
  ghost predicate Stocked(db: Db, serving: set<Key>) {
    forall k :: k in db && k !in serving && db[k].ListVal? ==> db[k].items != []
  }

  /** A client waits for a list on the key. */
  ghost predicate ListWaiter(w: Waiting, info: map<Client, Info>, k: Key) {
    exists n :: n in At(w, k) && n.client in info && info[n.client].kind == List
  }

  /** A client waits for a list on a key that has elements. */
  ghost predicate Hungry(w: Waiting, info: map<Client, Info>, db: Db, k: Key) {
    Items(db, k) != [] && ListWaiter(w, info, k)
  }

  /** Every such key is queued to be served, except the one that is being served. */
  ghost predicate Awake(w: Waiting, info: map<Client, Info>, db: Db, ready: set<Key>, serving: set<Key>) {
    forall k :: k !in serving && Hungry(w, info, db, k) ==> k in ready
  }

  // ------------------------------------------------------------------
  // Counting

  lemma CountAdd(info: map<Client, Info>, c: Client, i: Info, kind: Kind)
    requires c !in info
    ensures |info[c := i]| == |info| + 1
    ensures |OfKind(info[c := i], kind)| == |OfKind(info, kind)| + if kind == i.kind then 1 else 0
  {
    assert info[c := i].Keys == info.Keys + {c};
    KindAdd(info, c, i, kind);
    hide OfKind;
  }

  lemma KindAdd(info: map<Client, Info>, c: Client, i: Info, kind: Kind)
    requires c !in info
    ensures c !in OfKind(info, kind)
    ensures OfKind(info[c := i], kind) == OfKind(info, kind) + if kind == i.kind then {c} else {}
  {
  }

  lemma CountRemove(info: map<Client, Info>, c: Client, kind: Kind)
    requires c in info
    ensures |info - {c}| == |info| - 1
    ensures |OfKind(info - {c}, kind)| == |OfKind(info, kind)| - if kind == info[c].kind then 1 else 0
  {
    assert (info - {c}).Keys == info.Keys - {c};
    assert OfKind(info - {c}, kind) == OfKind(info, kind) - {c};
  }

  lemma CountedAdd(info: map<Client, Info>, blocked: int, byKind: map<Kind, int>, c: Client, i: Info)
    requires Counted(info, blocked, byKind) && c !in info
    ensures i.kind in byKind && Counted(info[c := i], blocked + 1, byKind[i.kind := byKind[i.kind] + 1])
  {
    forall k: Kind ensures |OfKind(info[c := i], k)| == |OfKind(info, k)| + if k == i.kind then 1 else 0 {
      CountAdd(info, c, i, k);
    }
    CountAdd(info, c, i, List);
  }

  lemma CountedRemove(info: map<Client, Info>, blocked: int, byKind: map<Kind, int>, c: Client)
    requires Counted(info, blocked, byKind) && c in info
    ensures var kind := info[c].kind;
      kind in byKind && Counted(info - {c}, blocked - 1, byKind[kind := byKind[kind] - 1])
  {
    forall k: Kind ensures |OfKind(info - {c}, k)| == |OfKind(info, k)| - if k == info[c].kind then 1 else 0 {
      CountRemove(info, c, k);
    }
    CountRemove(info, c, List);
  }

  /** A client of some kind makes the counter of that kind positive. */
  lemma CountPositive(info: map<Client, Info>, blocked: int, byKind: map<Kind, int>, c: Client)
    requires Counted(info, blocked, byKind) && c in info
    ensures info[c].kind in byKind && byKind[info[c].kind] > 0
  {
    assert c in OfKind(info, info[c].kind);
  }

  // ------------------------------------------------------------------
  // What removing and adding clients does to hunger

  lemma RemoveStaysAwake(w: Waiting, w': Waiting, l: Links, next: nat, info: map<Client, Info>, db: Db,
                         ready: set<Key>, serving: set<Key>, c: Client)
    requires Awake(w, info, db, ready, serving) && Mirrored(w, l, next) && Removed(w, w', l, c)
    ensures Awake(w', info - {c}, db, ready, serving)
  {
    hide Mirrored, Removed;
    forall k | k !in serving && Hungry(w', info - {c}, db, k) ensures k in ready {
      RemovedAt(w, w', l, next, c, k);
      var n :| n in At(w', k) && n.client in info - {c} && (info - {c})[n.client].kind == List;
      assert n in At(w, k);
      assert Hungry(w, info, db, k);
    }
  }

  lemma IndexedFacts(w: Waiting, l: Links, next: nat, info: map<Client, Info>)
    requires Indexed(w, l, next, info)
    ensures Mirrored(w, l, next) && l.Keys == info.Keys
  {
  }

  lemma IndexedAdd(w: Waiting, l: Links, next: nat, w': Waiting, l': Links, next': nat, info: map<Client, Info>,
                   c: Client, i: Info)
    requires Indexed(w, l, next, info) && Mirrored(w', l', next')
    requires l'.Keys == l.Keys + {c} && l'[c] != map[]
    requires forall d :: d in l' ==> d == c || (d in l && l'[d] == l[d])
    ensures Indexed(w', l', next', info[c := i])
  {
    hide Mirrored;
  }

  lemma IndexedRemove(w: Waiting, w': Waiting, l: Links, next: nat, info: map<Client, Info>, c: Client)
    requires Indexed(w, l, next, info) && Removed(w, w', l, c)
    ensures Indexed(w', l - {c}, next, info - {c})
  {
    RemoveKeepsMirror(w, w', l, next, c);
    hide Mirrored, Removed;
  }

  class Scheduler {
    var waiting: Waiting
    var links: Links
    var next: nat
    var info: map<Client, Info>
    var blocked: int
    var byKind: map<Kind, int>
    /** `db->ready_keys`. */
    var ready: set<Key>
    /** `server.ready_keys`, and the list that is being worked off. */
    var readyKeys: seq<Key>
    var draining: seq<Key>
    var db: Db
    var replies: seq<Reply>
    /** `server.unblocked_clients`. */
    var unblocked: seq<Client>

    ghost predicate Ok(serving: set<Key>)
      reads this
    {
      && Indexed(waiting, links, next, info)
      && Counted(info, blocked, byKind)
      && Queued(ready, draining + readyKeys)
      && Stocked(db, serving)
      && Awake(waiting, info, db, ready, serving)
    }

    ghost predicate Valid()
      reads this
    {
      Ok({})
    }

    ghost function Waiters(k: Key): seq<Client>
      reads this
    {
      ClientsOf(At(waiting, k))
    }

    constructor ()
      ensures Valid() && info == map[] && db == map[] && waiting == map[] && ready == {}
      ensures readyKeys == [] && draining == [] && replies == []
    {
      waiting, links, next, info, blocked := map[], map[], 0, map[], 0;
      byKind := map[List := 0, ZSet := 0, Stream := 0, Module := 0];
      ready, readyKeys, draining, db, replies, unblocked := {}, [], [], map[], [], [];
      new;
      forall k: Kind ensures k in byKind && byKind[k] == |OfKind(info, k)| {
        assert OfKind(info, k) == {};
        match k {
          case List =>
          case ZSet =>
          case Stream =>
          case Module =>
        }
      }
    }

    /** `blockForKeys`. Who waits for a list found no elements under its keys; others may wait for a key that exists. */
    method BlockForKeys(c: Client, keys: seq<Key>, i: Info)
      requires Valid() && c !in info && keys != []
      requires i.kind == List ==> forall k :: k in keys ==> Items(db, k) == []
      modifies this`waiting, this`links, this`next, this`info, this`blocked, this`byKind
      ensures Valid()
      ensures info == old(info)[c := i]
      ensures Enlisted(old(waiting), waiting, (set k | k in keys), c)
    {
      hide Indexed, Mirrored, Counted, Queued, Stocked, Awake, Enlisted;
      ghost var w0, l0, n0 := waiting, links, next;
      IndexedFacts(w0, l0, n0, info);
      ghost var done := Enlist(c, keys);
      assert done == (set k | k in keys);
      IndexedAdd(w0, l0, n0, waiting, links, next, info, c, i);
      BlockStaysAwake(w0, l0, n0, waiting, info, db, ready, c, i, done);
      BlockClient(c, i);
    }

    /** `blockClient`. */
    method BlockClient(c: Client, i: Info)
      requires Counted(info, blocked, byKind) && c !in info
      modifies this`info, this`blocked, this`byKind
      ensures Counted(info, blocked, byKind) && info == old(info)[c := i]
    {
      hide Counted;
      CountedAdd(info, blocked, byKind, c, i);
      blocked := blocked + 1;
      byKind := byKind[i.kind := byKind[i.kind] + 1];
      info := info[c := i];
    }

    /** The loop of `blockForKeys`. */
    method Enlist(c: Client, keys: seq<Key>) returns (ghost done: set<Key>)
      requires Mirrored(waiting, links, next) && c !in links && keys != []
      modifies this`waiting, this`links, this`next
      ensures forall k :: k in done <==> k in keys
      ensures Mirrored(waiting, links, next)
      ensures links.Keys == old(links).Keys + {c} && links[c] != map[]
      ensures forall d :: d in links ==> d == c || (d in old(links) && links[d] == old(links)[d])
      ensures Enlisted(old(waiting), waiting, done, c)
    {
      hide Mirrored, Enlisted, LinksAre, Put, Link, At, ClientsOf;
      ghost var w0, l0 := waiting, links;
      done := {};
      StartEnlisting(w0, l0, c);
      for j := 0 to |keys|
        invariant Mirrored(waiting, links, next)
        invariant Enlisted(w0, waiting, done, c) && LinksAre(l0, links, done, c)
        invariant forall k :: k in done <==> k in keys[..j]
      {
        assert keys[..j + 1] == keys[..j] + [keys[j]];
        LinkedMeansDone(l0, links, done, c, keys[j]);
        if !(c in links && keys[j] in links[c]) {
          EnlistOne(w0, waiting, l0, links, next, done, c, keys[j]);
          AddWaiter(c, keys[j]);
          done := done + {keys[j]};
        }
      }
      assert keys[..|keys|] == keys;
      assert keys[0] in done;
      EndEnlisting(l0, links, done, c);
    }

    /** Append a node for `c` to the list of `k` and remember it in the client. */
    method AddWaiter(c: Client, k: Key)
      modifies this`waiting, this`links, this`next
      ensures var n := Node(old(next), c);
        && waiting == Put(old(waiting), k, At(old(waiting), k) + [n])
        && links == Link(old(links), c, k, n)
        && next == old(next) + 1
    {
      var n := Node(next, c);
      if k in waiting {
        waiting := waiting[k := waiting[k] + [n]];
      } else {
        assert [] + [n] == [n];
        waiting := waiting[k := [n]];
      }
      links := links[c := (if c in links then links[c] else map[])[k := n]];
      next := next + 1;
    }

    /** `unblockClient` for a client that waits for keys. */
    method UnblockClient(c: Client, ghost serving: set<Key>)
      requires Ok(serving) && c in info
      modifies this`waiting, this`links, this`info, this`blocked, this`byKind, this`unblocked
      ensures Ok(serving)
      ensures info == old(info) - {c}
      ensures forall k :: Waiters(k) == Except(old(Waiters(k)), c)
      ensures c in unblocked && old(unblocked) <= unblocked
    {
      hide Indexed, Mirrored, Counted, Queued, Stocked, Awake, Removed, ClientsOf, At, Unlinked, Except;
      ghost var w0, l0 := waiting, links;
      IndexedFacts(w0, l0, next, info);
      UnlinkAll(c);
      IndexedRemove(w0, waiting, l0, next, info, c);
      RemoveStaysAwake(w0, waiting, l0, next, info, db, ready, serving, c);
      CountedRemove(info, blocked, byKind, c);
      forall k ensures ClientsOf(At(waiting, k)) == Except(ClientsOf(At(w0, k)), c) {
        RemovedClients(w0, waiting, l0, next, c, k);
      }
      links := links - {c};
      blocked := blocked - 1;
      byKind := byKind[info[c].kind := byKind[info[c].kind] - 1];
      info := info - {c};
      if c !in unblocked {
        unblocked := unblocked + [c];
      }
    }

    /** The loop of `unblockClientWaitingData`. */
    method UnlinkAll(c: Client)
      requires Mirrored(waiting, links, next) && c in links
      modifies this`waiting
      ensures Removed(old(waiting), waiting, links, c)
    {
      hide Mirrored, Unlinked;
      ghost var w0 := waiting;
      var todo := links[c].Keys;
      NoEmptyLists(waiting, links, next);
      while todo != {}
        invariant todo <= links[c].Keys
        invariant forall k :: k in waiting ==> waiting[k] != []
        invariant forall k :: At(waiting, k) == PartlyRemoved(w0, links[c], todo, k)
        decreases |todo|
      {
        var k :| k in todo;
        LinkedIsListed(w0, links, next, c, k);
        ghost var w := waiting;
        assert At(w, k) == PartlyRemoved(w0, links[c], todo, k) == At(w0, k);
        var rest := Unlinked(waiting[k], links[c][k]);
        if rest == [] {
          waiting := waiting - {k};
        } else {
          waiting := waiting[k := rest];
        }
        forall j ensures At(waiting, j) == PartlyRemoved(w0, links[c], todo - {k}, j) {
          assert At(w, j) == PartlyRemoved(w0, links[c], todo, j);
        }
        todo := todo - {k};
      }
      forall k ensures At(waiting, k) == if Linked(links, c, k) then Unlinked(At(w0, k), links[c][k]) else At(w0, k) {
        assert At(waiting, k) == PartlyRemoved(w0, links[c], {}, k);
      }
    }

    /** `signalKeyAsReady`. A key with a client that waits for this kind of value, or for a module, ends
        up queued. */
    method SignalKeyAsReady(key: Key, kind: Option<Kind>)
      requires Indexed(waiting, links, next, info) && Counted(info, blocked, byKind)
      requires Queued(ready, draining + readyKeys)
      modifies this`ready, this`readyKeys
      ensures Queued(ready, draining + readyKeys)
      ensures ready == old(ready) || ready == old(ready) + {key}
      ensures readyKeys == old(readyKeys) || readyKeys == old(readyKeys) + [key]
      ensures kind.Some? && Awaited(waiting, info, key, kind.value) ==> key in ready
      ensures key in ready && key !in old(ready) ==> key in waiting
      ensures kind == None ==> ready == old(ready) && readyKeys == old(readyKeys)
    {
      if kind == None {
        return;
      }
      SignalIsHeard(waiting, links, next, info, blocked, byKind, key, kind.value);
      hide Counted, Mirrored, Awaited;
      if byKind[kind.value] == 0 && byKind[Module] == 0 {
        return;
      }
      if key !in waiting {
        return;
      }
      if key in ready {
        return;
      }
      QueueKey(ready, draining + readyKeys, key);
      assert draining + (readyKeys + [key]) == draining + readyKeys + [key];
      readyKeys := readyKeys + [key];
      ready := ready + {key};
    }

    /** Pop an element for a client that waits for a list and serve it: `serveClientBlockedOnList` and
        what surrounds it. */
    method ServeClient(key: Key, c: Client)
      requires Ok({key}) && c in info && Items(db, key) != []
      modifies this`waiting, this`links, this`info, this`blocked, this`byKind, this`unblocked, this`ready,
               this`readyKeys, this`db, this`replies
      ensures Ok({key})
      ensures db == ServeDb(old(db), key, old(info)[c])
      ensures replies == old(replies) + [ServeReply(old(db), key, c, old(info)[c])]
      ensures Happened(old(db), db, key, old(info)[c], replies[|replies| - 1])
      ensures info == old(info) - {c}
      ensures forall k :: Waiters(k) == Except(old(Waiters(k)), c)
      ensures old(readyKeys) <= readyKeys
    {
      hide Indexed, Counted, Queued, Stocked, Awake, Awaited, PopElem, PopRest, PushElem, Except, At, ClientsOf,
           Happened;
      var i := info[c];
      ServeHappened(db, key, c, i);
      ghost var db0 := db;
      var v := PopElem(db[key].items, i.fromHead);
      db := db[key := ListVal(PopRest(db[key].items, i.fromHead))];
      ghost var popped := db;
      PopStaysAwake(waiting, info, db0, popped, ready, key);
      match i.target {
        case None =>
          replies := replies + [Popped(c, key, v)];
        case Some(d) =>
          if d in db && db[d].OtherVal? {
            replies := replies + [Failed(c)];
            db := db[key := ListVal(PushElem(db[key].items, v, i.fromHead))];
            PopStaysAwake(waiting, info, popped, db, ready, key);
          } else {
            ghost var ready0 := ready;
            if d !in db {
              db := db[d := ListVal([])];
              SignalKeyAsReady(d, Some(List));
            }
            db := db[d := ListVal(PushElem(db[d].items, v, i.toHead))];
            assert db == popped[d := ListVal(PushElem(Items(popped, d), v, i.toHead))];
            PushStaysAwake(waiting, info, popped, ready0, ready, key, d, v, i.toHead);
            replies := replies + [Moved(c, v)];
          }
      }
      UnblockClient(c, {key});
    }

    /** `listRotateHeadToTail` on the list of `key`. */
    method RotateWaiters(key: Key)
      requires Ok({key}) && key in waiting
      modifies this`waiting
      ensures Ok({key}) && Waiters(key) == Rotate(old(Waiters(key)))
      ensures forall k :: k != key ==> At(waiting, k) == old(At(waiting, k))
    {
      RotateKeepsMirror(waiting, links, next, key);
      RotateStaysAwake(waiting, info, db, ready, key);
      ghost var s := waiting[key];
      assert s != [];
      assert ClientsOf(Rotate(s)) == Rotate(ClientsOf(s));
      hide Mirrored, Awake, Counted, Queued, Stocked;
      waiting := waiting[key := waiting[key][1..] + [waiting[key][0]]];
    }

    /** `serveClientsBlockedOnListKey`. */
    method ServeClientsBlockedOnListKey(key: Key)
      requires Ok({key}) && key in db && db[key].ListVal?
      modifies this`waiting, this`links, this`info, this`blocked, this`byKind, this`unblocked, this`ready,
               this`readyKeys, this`db, this`replies
      ensures Valid()
      ensures ServesAs(Waiters(key), db, info, replies, old(Waiters(key)), old(db), old(info), old(replies), key)
      ensures old(readyKeys) <= readyKeys
      ensures |info| < |old(info)| || (info == old(info) && readyKeys == old(readyKeys))
    {
      hide Indexed, Counted, Queued, Stocked, Awake, Serve, ClientsOf, At;
      ghost var info0, q0, db0 := info, Waiters(key), db;
      ghost var served, sent := ServeQueue(key);
      NobodyIsForgotten(info0, q0, db0, key, |q0|);
      OthersRemain(Waiters(key), info0, info);
      EndServing(waiting, info, db, ready, key);
      if db[key].items == [] {
        db := db - {key};
      }
    }

    /** The loop of `serveClientsBlockedOnListKey`. */
    method ServeQueue(key: Key) returns (ghost served: seq<Client>, ghost sent: seq<Reply>)
      requires Ok({key}) && key in db && db[key].ListVal?
      modifies this`waiting, this`links, this`info, this`blocked, this`byKind, this`unblocked, this`ready,
               this`readyKeys, this`db, this`replies
      ensures Ok({key}) && key in db && db[key].ListVal?
      ensures Remain(old(Waiters(key)), old(info), old(info)) && Remain(Waiters(key), old(info), info)
      ensures Serve(old(info), old(Waiters(key)), old(db), key, |old(Waiters(key))|)
           == Served(Waiters(key), db, served, sent)
      ensures replies == old(replies) + sent
      ensures info == old(info) - ClientSet(served) && |info| + |served| == |old(info)|
      ensures old(readyKeys) <= readyKeys && (served == [] ==> readyKeys == old(readyKeys))
    {
      hide Indexed, Counted, Queued, Stocked, Awake, Serve, At, ClientsOf, Join, ClientSet, Progress, Remain;
      ghost var info0, db0 := info, db;
      QueueIsKnown(waiting, links, next, info, key);
      var n: nat := if key in waiting then |waiting[key]| else 0;
      QueueSize(waiting, key);
      served, sent := [], [];
      ghost var at := Point(Waiters(key), db, n, served, sent, replies, info);
      ghost var start := at;
      ProgressStart(at, info0, key);
      var empty := false;
      while n > 0 && !empty
        invariant Ok({key}) && key in db && db[key].ListVal?
        invariant at == Point(Waiters(key), db, n, served, sent, replies, info)
        invariant Progress(start, at, key)
        invariant empty ==> Stuck(at, info0, key)
        invariant old(readyKeys) <= readyKeys && (served == [] ==> readyKeys == old(readyKeys))
        decreases n, !empty
      {
        ghost var more, new_;
        ProgressFacts(start, at, key);
        empty, more, new_ := ServeNext(key, n, info0);
        if !empty {
          n := n - 1;
          ghost var to := Point(Waiters(key), db, n, served + more, sent + new_, replies, info);
          ProgressNext(start, at, to, more, new_, key);
          served, sent := served + more, sent + new_;
          at := to;
        }
      }
      ProgressEnd(start, at, key);
    }

    /** One round: pass over a client of another kind, stop at an empty list, or serve the client. */
    method ServeNext(key: Key, n: nat, ghost info0: map<Client, Info>)
      returns (empty: bool, ghost served: seq<Client>, ghost sent: seq<Reply>)
      requires Ok({key}) && key in db && db[key].ListVal?
      requires 0 < n <= |Waiters(key)| && Remain(Waiters(key), info0, info)
      modifies this`waiting, this`links, this`info, this`blocked, this`byKind, this`unblocked, this`ready,
               this`readyKeys, this`db, this`replies
      ensures Ok({key}) && key in db && db[key].ListVal?
      ensures Remain(Waiters(key), info0, info) && n - 1 <= |Waiters(key)|
      ensures empty ==> Waiters(key) == old(Waiters(key)) && db == old(db)
      ensures empty ==> replies == old(replies) && info == old(info)
      ensures empty ==> readyKeys == old(readyKeys)
      ensures empty ==> Serve(info0, old(Waiters(key)), old(db), key, n) == Served(Waiters(key), db, [], [])
      ensures !empty ==>
        Serve(info0, old(Waiters(key)), old(db), key, n)
          == Join(served, sent, Serve(info0, Waiters(key), db, key, n - 1))
      ensures |served| <= 1 && replies == old(replies) + sent && (served == [] ==> sent == [])
      ensures info == old(info) - ClientSet(served) && |info| == |old(info)| - |served|
      ensures old(readyKeys) <= readyKeys && (served == [] ==> readyKeys == old(readyKeys))
    {
      hide Indexed, Counted, Queued, Stocked, Awake, Serve, ServeDb, ServeReply, Except, At, ClientsOf, Rotate, Join;
      ghost var q := Waiters(key);
      QueueSize(waiting, key);
      FirstOut(waiting, links, next, info, key);
      ServeUnfold(info0, q, db, key, n);
      empty, served, sent := false, [], [];
      var c := waiting[key][0].client;
      if info[c].kind != List {
        RotateMembers(q);
        RotateWaiters(key);
        JoinNothing(Serve(info0, Waiters(key), db, key, n - 1));
      } else if db[key].items == [] {
        empty := true;
      } else {
        ghost var x := ServeReply(db, key, c, info0[c]);
        ServeKeepsList(db, key, info[c]);
        CountRemove(info, c, List);
        TailRemains(q, info0, info);
        ServeClient(key, c);
        JoinOne([], [], c, x, Serve(info0, q[1..], db, key, n - 1));
        JoinNothing(Serve(info0, q, old(db), key, n));
        assert [] + [c] == [c] && [] + [x] == [x];
        served, sent := [c], [x];
        assert ClientSet(served) == {c};
      }
    }

    /** The inner loop of `handleClientsBlockedOnKeys`: work off one key. */
    method HandleKey(ghost keys: seq<Key>)
      requires Valid() && draining != [] && Covers(keys, db, info)
      modifies this
      ensures Valid() && draining == old(draining)[1..] && Covers(keys, db, info)
      ensures Stock(db, keys) + TakenAll(replies) == old(Stock(db, keys) + TakenAll(replies))
      ensures |info| < |old(info)| || (|info| == |old(info)| && readyKeys == old(readyKeys))
    {
      hide Indexed, Counted, Queued, Stocked, Awake, Serve, Covers, Stock, TakenAll, ClientsOf, At;
      var key := draining[0];
      Unqueue(ready, draining, readyKeys);
      LookAway(waiting, info, db, ready, key);
      ready := ready - {key};
      draining := draining[1..];
      if key in db && db[key].ListVal? {
        ghost var q0, db0, info0, replies0 := Waiters(key), db, info, replies;
        ServeClientsBlockedOnListKey(key);
        ServesConserves(Waiters(key), db, info, replies, q0, db0, info0, replies0, key, keys);
      } else {
        NotAList(waiting, info, db, ready, key);
      }
    }

    /** `handleClientsBlockedOnKeys`. It ends, because every round either unblocks a client or leaves
        fewer keys queued; and then nobody waits for a list that has elements. */
    method HandleClientsBlockedOnKeys(ghost keys: seq<Key>)
      requires Valid() && draining == [] && Covers(keys, db, info)
      modifies this
      ensures Valid() && draining == [] && readyKeys == [] && Covers(keys, db, info)
      ensures forall k :: !Hungry(waiting, info, db, k)
      ensures Stock(db, keys) + TakenAll(replies) == old(Stock(db, keys) + TakenAll(replies))
    {
      hide Indexed, Counted, Queued, Stocked, Awake, Covers, Stock, TakenAll;
      while readyKeys != []
        invariant Valid() && draining == [] && Covers(keys, db, info)
        invariant Stock(db, keys) + TakenAll(replies) == old(Stock(db, keys) + TakenAll(replies))
        decreases |info|, |readyKeys|
      {
        assert [] + readyKeys == readyKeys && readyKeys + [] == readyKeys;
        draining, readyKeys := readyKeys, [];
        ghost var before := info;
        while draining != []
          invariant Valid() && Covers(keys, db, info)
          invariant Stock(db, keys) + TakenAll(replies) == old(Stock(db, keys) + TakenAll(replies))
          invariant |info| <= |before| && (|info| == |before| ==> readyKeys == [])
          decreases |info|, |draining| + |readyKeys|
        {
          HandleKey(keys);
        }
      }
      NobodyHungry(waiting, info, db, ready, draining + readyKeys);
    }

    /** A push command: a new list is signalled when it is added to the database. */
    method Push(key: Key, elems: seq<Elem>, toHead: bool) returns (wrongType: bool)
      requires Valid() && elems != []
      modifies this`db, this`ready, this`readyKeys
      ensures Valid()
      ensures wrongType <==> key in old(db) && old(db)[key].OtherVal?
      ensures db == if wrongType then old(db) else old(db)[key := ListVal(Pushed(Items(old(db), key), elems, toHead))]
      ensures !wrongType ==>
        Items(db, key) == if toHead then Reversed(elems) + Items(old(db), key) else Items(old(db), key) + elems
    {
      hide Indexed, Counted, Queued, Stocked, Awake, Awaited, PushElem;
      if key in db && db[key].OtherVal? {
        return true;
      }
      ghost var db0, ready0 := db, ready;
      if key !in db {
        db := db[key := ListVal([])];
        SignalKeyAsReady(key, Some(List));
      }
      var s := db[key].items;
      for j := 0 to |elems|
        invariant s == Pushed(Items(db0, key), elems[..j], toHead)
        modifies {}
      {
        assert elems[..j + 1][..j] == elems[..j];
        s := PushElem(s, elems[j], toHead);
      }
      assert elems[..|elems|] == elems;
      db := db[key := ListVal(s)];
      assert db == db0[key := ListVal(s)];
      PushedNotEmpty(Items(db0, key), elems, toHead);
      PushedEnds(Items(db0, key), elems, toHead);
      PushAllStaysAwake(waiting, info, db0, ready0, ready, key, s);
      return false;
    }

    /** A value that is not a list, such as a string or a sorted set, under a new key. */
    method AddOther(key: Key, kind: Option<Kind>)
      requires Valid() && key !in db
      modifies this`db, this`ready, this`readyKeys
      ensures Valid() && db == old(db)[key := OtherVal]
      ensures kind == None ==> ready == old(ready) && readyKeys == old(readyKeys)
    {
      ghost var ready0 := ready;
      OtherStaysAwake(waiting, info, db, ready, key);
      hide Indexed, Counted, Queued, Stocked, Awake, Awaited;
      db := db[key := OtherVal];
      SignalKeyAsReady(key, kind);
      MoreReady(waiting, info, db, ready0, ready);
    }

    /** `dbOverwrite`, which signals nothing. Nobody is left waiting who should be served if and only if the new value
        is no list, the key is queued already, or no client waits for a list on it. */
    method Overwrite(key: Key, v: Value)
      requires Valid() && key in db && v != ListVal([])
      modifies this`db
      ensures db == old(db)[key := v] && Stocked(db, {})
      ensures Valid() <==> v.OtherVal? || key in ready || !ListWaiter(waiting, info, key)
    {
      OverwriteAwake(waiting, info, db, ready, key, v);
      hide Indexed, Counted, Queued, Stocked, Awake, ListWaiter;
      db := db[key := v];
    }

    method Delete(key: Key)
      requires Valid()
      modifies this`db
      ensures Valid() && db == old(db) - {key}
    {
      DeleteStaysAwake(waiting, info, db, ready, key);
      hide Indexed, Counted, Queued, Stocked, Awake;
      db := db - {key};
    }
  }

  function Pushed(s: seq<Elem>, elems: seq<Elem>, toHead: bool): seq<Elem> {
    if elems == [] then s else PushElem(Pushed(s, elems[..|elems| - 1], toHead), elems[|elems| - 1], toHead)
  }

  function Reversed(s: seq<Elem>): (r: seq<Elem>)
    ensures |r| == |s| && forall j :: 0 <= j < |s| ==> r[j] == s[|s| - 1 - j]
  {
    seq(|s|, j requires 0 <= j < |s| => s[|s| - 1 - j])
  }

  lemma ReversedLast(s: seq<Elem>, x: Elem)
    ensures Reversed(s + [x]) == [x] + Reversed(s)
  {
  }

  lemma PushedNext(s: seq<Elem>, init: seq<Elem>, x: Elem, toHead: bool)
    ensures Pushed(s, init + [x], toHead)
         == if toHead then [x] + Pushed(s, init, toHead) else Pushed(s, init, toHead) + [x]
  {
    assert (init + [x])[..|init|] == init;
  }

  lemma NothingPushed(s: seq<Elem>, toHead: bool)
    ensures Pushed(s, [], toHead) == s && Reversed([]) + s == s && s + [] == s
  {
  }

  lemma Regroup(a: seq<Elem>, b: seq<Elem>, c: seq<Elem>)
    ensures a + (b + c) == (a + b) + c
  {
  }

  /** Elements pushed to the tail follow the list in their order; pushed to the head they precede it, the last first. */
  lemma {:induction false} PushedEnds(s: seq<Elem>, elems: seq<Elem>, toHead: bool)
    ensures Pushed(s, elems, toHead) == if toHead then Reversed(elems) + s else s + elems
    decreases |elems|
  {
    hide Pushed, Reversed;
    if elems == [] {
      NothingPushed(s, toHead);
    } else {
      var init, x := elems[..|elems| - 1], elems[|elems| - 1];
      assert elems == init + [x];
      PushedEnds(s, init, toHead);
      PushedNext(s, init, x, toHead);
      ReversedLast(init, x);
      Regroup([x], Reversed(init), s);
      Regroup(s, init, [x]);
    }
  }

  lemma PushedNotEmpty(s: seq<Elem>, elems: seq<Elem>, toHead: bool)
    requires elems != []
    ensures Pushed(s, elems, toHead) != []
  {
  }

  lemma PushAllStaysAwake(w: Waiting, info: map<Client, Info>, db: Db, ready: set<Key>, ready': set<Key>, d: Key,
                          s: seq<Elem>)
    requires Awake(w, info, db, ready, {}) && Stocked(db, {}) && ready <= ready' && s != []
    requires d in db ==> db[d].ListVal?
    requires d !in db && Awaited(w, info, d, List) ==> d in ready'
    ensures var db' := db[d := ListVal(s)]; Awake(w, info, db', ready', {}) && Stocked(db', {})
  {
    var db' := db[d := ListVal(s)];
    forall k | Hungry(w, info, db', k) ensures k in ready' {
      if k != d || d in db {
        assert Hungry(w, info, db, k);
      }
    }
  }

  lemma OtherStaysAwake(w: Waiting, info: map<Client, Info>, db: Db, ready: set<Key>, key: Key)
    requires Awake(w, info, db, ready, {}) && Stocked(db, {}) && key !in db
    ensures Awake(w, info, db[key := OtherVal], ready, {}) && Stocked(db[key := OtherVal], {})
  {
    forall k | Hungry(w, info, db[key := OtherVal], k) ensures k in ready {
      assert Items(db[key := OtherVal], k) == Items(db, k);
      assert Hungry(w, info, db, k);
    }
  }

  lemma DeleteStaysAwake(w: Waiting, info: map<Client, Info>, db: Db, ready: set<Key>, key: Key)
    requires Awake(w, info, db, ready, {}) && Stocked(db, {})
    ensures Awake(w, info, db - {key}, ready, {}) && Stocked(db - {key}, {})
  {
    forall k | Hungry(w, info, db - {key}, k) ensures k in ready {
      assert Items(db - {key}, k) == Items(db, k);
      assert Hungry(w, info, db, k);
    }
  }

  lemma OverwriteAwake(w: Waiting, info: map<Client, Info>, db: Db, ready: set<Key>, key: Key, v: Value)
    requires Awake(w, info, db, ready, {}) && Stocked(db, {}) && v != ListVal([])
    ensures Stocked(db[key := v], {})
    ensures Awake(w, info, db[key := v], ready, {}) <==> v.OtherVal? || key in ready || !ListWaiter(w, info, key)
  {
    hide ListWaiter;
    var db' := db[key := v];
    assert forall k :: k != key ==> Items(db', k) == Items(db, k);
    assert Hungry(w, info, db', key) <==> v.ListVal? && ListWaiter(w, info, key);
    assert forall k :: k != key ==> (Hungry(w, info, db', k) <==> Hungry(w, info, db, k));
  }

  /** A wakeup that is lost: a client waits for a list under a missing key, a string is stored there, and then a list
      is stored over it. The client waits on a list with an element and nothing is queued. */
  method OverwriteLosesWakeup() returns (s: Scheduler)
    ensures fresh(s) && Hungry(s.waiting, s.info, s.db, "k") && s.draining + s.readyKeys == [] && !s.Valid()
  {
    hide Indexed, Counted, Queued, Stocked, Awake;
    s := new Scheduler();
    s.BlockForKeys(1, ["k"], Info(List, None, true, true));
    s.AddOther("k", None);
    assert ListWaiter(s.waiting, s.info, "k") by {
      JoinedWaits(s.waiting, s.info, "k", 1);
    }
    s.Overwrite("k", ListVal(["x"]));
  }

  lemma JoinedWaits(w: Waiting, info: map<Client, Info>, k: Key, c: Client)
    requires c in ClientsOf(At(w, k)) && c in info && info[c].kind == List
    ensures ListWaiter(w, info, k)
  {
    var s := At(w, k);
    var j :| 0 <= j < |s| && ClientsOf(s)[j] == c;
    assert s[j] in s;
  }

  lemma MoreReady(w: Waiting, info: map<Client, Info>, db: Db, ready: set<Key>, ready': set<Key>)
    requires Awake(w, info, db, ready, {}) && ready <= ready'
    ensures Awake(w, info, db, ready', {})
  {
  }

  /** Taking the first key off the queue. */
  lemma Unqueue(ready: set<Key>, draining: seq<Key>, readyKeys: seq<Key>)
    requires Queued(ready, draining + readyKeys) && draining != []
    ensures Queued(ready - {draining[0]}, draining[1..] + readyKeys)
  {
    var q, r := draining + readyKeys, draining[1..] + readyKeys;
    assert r == q[1..] && q == [q[0]] + r;
  }

  lemma LookAway(w: Waiting, info: map<Client, Info>, db: Db, ready: set<Key>, key: Key)
    requires Awake(w, info, db, ready, {}) && Stocked(db, {})
    ensures Awake(w, info, db, ready - {key}, {key}) && Stocked(db, {key})
  {
  }

  lemma NotAList(w: Waiting, info: map<Client, Info>, db: Db, ready: set<Key>, key: Key)
    requires Awake(w, info, db, ready, {key}) && Stocked(db, {key}) && !(key in db && db[key].ListVal?)
    ensures Awake(w, info, db, ready, {}) && Stocked(db, {})
  {
    assert !Hungry(w, info, db, key);
  }

  lemma NobodyHungry(w: Waiting, info: map<Client, Info>, db: Db, ready: set<Key>, queue: seq<Key>)
    requires Awake(w, info, db, ready, {}) && Queued(ready, queue) && queue == []
    ensures forall k :: !Hungry(w, info, db, k)
  {
    hide Hungry;
  }

  lemma ServesConserves(q': seq<Client>, db': Db, info': map<Client, Info>, replies': seq<Reply>,
                        q: seq<Client>, db: Db, info: map<Client, Info>, replies: seq<Reply>, key: Key, keys: seq<Key>)
    requires ServesAs(q', db', info', replies', q, db, info, replies, key) && Covers(keys, db, info) && key in db
    ensures Covers(keys, db', info')
    ensures Stock(db', keys) + TakenAll(replies') == Stock(db, keys) + TakenAll(replies)
  {
    hide Serve, Stock, TakenAll;
    var r := Serve(info, q, db, key, |q|);
    ServeCovered(info, q, db, key, |q|, keys);
    ServeConserves(info, q, db, key, |q|, keys);
    TakenAppend(replies, r.replies);
    if Items(r.db, key) == [] {
      StockWithout(r.db, keys, key);
    }
    var a, b, c := Stock(r.db, keys), TakenAll(r.replies), TakenAll(replies);
    assert a + (c + b) == (a + b) + c;
  }

  /** Where the serving loop is: the queue, the lists, the rounds left, and what was done so far. */
  datatype Point = Point(queue: seq<Client>, db: Db, n: nat, served: seq<Client>, sent: seq<Reply>,
                         replies: seq<Reply>, info: map<Client, Info>)

  ghost predicate Fits(at: Point, info0: map<Client, Info>) {
    at.n <= |at.queue| && Remain(at.queue, info0, at.info)
  }

  ghost function Rest(at: Point, info0: map<Client, Info>, key: Key): Served
    requires Fits(at, info0)
  {
    Serve(info0, at.queue, at.db, key, at.n)
  }

  /** The list is empty, so the rest of the loop does nothing. */
  ghost predicate Stuck(at: Point, info0: map<Client, Info>, key: Key) {
    Fits(at, info0) && Rest(at, info0, key) == Served(at.queue, at.db, [], [])
  }

  /** What was done so far and what the rest of the loop will do make up the whole. */
  ghost predicate Progress(start: Point, at: Point, key: Key) {
    && Fits(start, start.info) && Fits(at, start.info)
    && Rest(start, start.info, key) == Join(at.served, at.sent, Rest(at, start.info, key))
    && at.replies == start.replies + at.sent
    && at.info == start.info - ClientSet(at.served)
    && |at.info| + |at.served| == |start.info|
  }

  lemma ProgressStart(at: Point, info0: map<Client, Info>, key: Key)
    requires Fits(at, info0) && at.info == info0 && at.served == [] && at.sent == []
    ensures Progress(at, at, key)
  {
    JoinNothing(Rest(at, info0, key));
    InfoMinusNone(info0);
    assert at.replies + [] == at.replies;
  }

  lemma ProgressFacts(start: Point, at: Point, key: Key)
    requires Progress(start, at, key)
    ensures Fits(at, start.info)
  {
  }

  lemma ProgressNext(start: Point, at: Point, to: Point, more: seq<Client>, new_: seq<Reply>, key: Key)
    requires Progress(start, at, key) && Fits(to, start.info)
    requires Rest(at, start.info, key) == Join(more, new_, Rest(to, start.info, key))
    requires to.served == at.served + more && to.sent == at.sent + new_ && to.replies == at.replies + new_
    requires to.info == at.info - ClientSet(more) && |to.info| == |at.info| - |more|
    ensures Progress(start, to, key)
  {
    hide Rest, Join, ClientSet, Fits;
    JoinMore(at.served, at.sent, more, new_, Rest(to, start.info, key));
    InfoMinus(start.info, at.served, more);
    assert start.replies + at.sent + new_ == start.replies + (at.sent + new_);
  }

  lemma ProgressEnd(start: Point, at: Point, key: Key)
    requires Progress(start, at, key) && (at.n == 0 || Stuck(at, start.info, key))
    ensures Fits(start, start.info) && Fits(at, start.info)
    ensures Rest(start, start.info, key) == Served(at.queue, at.db, at.served, at.sent)
    ensures at.replies == start.replies + at.sent
    ensures at.info == start.info - ClientSet(at.served) && |at.info| + |at.served| == |start.info|
  {
    JoinAll(at.served, at.sent, at.queue, at.db);
  }

  function ClientSet(q: seq<Client>): set<Client> {
    set c | c in q
  }

  lemma InfoMinus(info: map<Client, Info>, a: seq<Client>, b: seq<Client>)
    ensures (info - ClientSet(a)) - ClientSet(b) == info - ClientSet(a + b)
  {
  }

  lemma InfoMinusNone(info: map<Client, Info>)
    ensures info - ClientSet([]) == info
  {
  }

  lemma JoinMore(served: seq<Client>, sent: seq<Reply>, more: seq<Client>, new_: seq<Reply>, r: Served)
    ensures Join(served, sent, Join(more, new_, r)) == Join(served + more, sent + new_, r)
  {
    assert served + (more + r.served) == served + more + r.served;
    assert sent + (new_ + r.replies) == sent + new_ + r.replies;
  }

  lemma OthersRemain(q: seq<Client>, info0: map<Client, Info>, info: map<Client, Info>)
    requires Remain(q, info0, info)
    ensures (forall c :: c in q ==> c in info0 && info0[c].kind != List) ==>
      forall c :: c in q ==> c in info && info[c].kind != List
  {
  }

  /** What serving a key amounts to, in terms of `Serve`. */
  ghost predicate ServesAs(q': seq<Client>, db': Db, info': map<Client, Info>, replies': seq<Reply>,
                           q: seq<Client>, db: Db, info: map<Client, Info>, replies: seq<Reply>, key: Key)
  {
    && (forall c :: c in q ==> c in info)
    && var r := Serve(info, q, db, key, |q|);
       && q' == r.queue
       && db' == (if Items(r.db, key) == [] then r.db - {key} else r.db)
       && info' == info - ClientSet(r.served)
       && replies' == replies + r.replies
  }

  /** The clients in the queue are still blocked for what they asked. */
  ghost predicate Remain(q: seq<Client>, info0: map<Client, Info>, info: map<Client, Info>) {
    forall c :: c in q ==> c in info0 && c in info && info[c] == info0[c]
  }

  function Join(served: seq<Client>, sent: seq<Reply>, r: Served): Served {
    r.(served := served + r.served, replies := sent + r.replies)
  }

  lemma JoinNothing(r: Served)
    ensures Join([], [], r) == r
  {
    assert [] + r.served == r.served && [] + r.replies == r.replies;
  }

  lemma JoinOne(served: seq<Client>, sent: seq<Reply>, c: Client, x: Reply, r: Served)
    ensures Join(served, sent, r.(served := [c] + r.served, replies := [x] + r.replies))
         == Join(served + [c], sent + [x], r)
  {
    assert served + ([c] + r.served) == served + [c] + r.served;
    assert sent + ([x] + r.replies) == sent + [x] + r.replies;
  }

  lemma JoinAll(served: seq<Client>, sent: seq<Reply>, q: seq<Client>, db: Db)
    ensures Join(served, sent, Served(q, db, [], [])) == Served(q, db, served, sent)
  {
    assert served + [] == served && sent + [] == sent;
  }

  lemma QueueIsKnown(w: Waiting, l: Links, next: nat, info: map<Client, Info>, key: Key)
    requires Indexed(w, l, next, info)
    ensures Remain(ClientsOf(At(w, key)), info, info)
  {
    var s := At(w, key);
    assert ListOk(s, key, l, next);
    assert forall i :: 0 <= i < |s| ==> s[i] in s;
  }

  lemma QueueSize(w: Waiting, key: Key)
    ensures |ClientsOf(At(w, key))| == if key in w then |w[key]| else 0
  {
  }

  /** The first client of a list is on it only once. */
  lemma FirstOut(w: Waiting, l: Links, next: nat, info: map<Client, Info>, key: Key)
    requires Indexed(w, l, next, info) && key in w
    ensures w[key] != [] && ClientsOf(At(w, key)) != [] && ClientsOf(At(w, key))[0] == w[key][0].client
    ensures Except(ClientsOf(At(w, key)), w[key][0].client) == ClientsOf(At(w, key))[1..]
  {
    var s := At(w, key);
    assert ListOk(s, key, l, next);
    assert forall i :: 0 <= i < |s| ==> s[i] in s;
    hide Mirrored;
    var t := ClientsOf(s);
    forall i | 1 <= i < |t| ensures t[i] != t[0] {
    }
    ExceptAbsent(t[1..], t[0]);
  }

  lemma ServeUnfold(info: map<Client, Info>, q: seq<Client>, db: Db, key: Key, n: nat)
    requires 0 < n <= |q| && (forall c :: c in q ==> c in info)
    ensures Serve(info, q, db, key, n) ==
      if info[q[0]].kind != List then Serve(info, Rotate(q), db, key, n - 1)
      else if Items(db, key) == [] then Served(q, db, [], [])
      else
        var r := Serve(info, q[1..], ServeDb(db, key, info[q[0]]), key, n - 1);
        r.(served := [q[0]] + r.served, replies := [ServeReply(db, key, q[0], info[q[0]])] + r.replies)
  {
  }

  lemma RotateMembers(q: seq<Client>)
    ensures |Rotate(q)| == |q| && forall c :: c in Rotate(q) <==> c in q
  {
    if q != [] {
      assert q == [q[0]] + q[1..];
    }
  }

  lemma ServeKeepsList(db: Db, key: Key, i: Info)
    requires Items(db, key) != []
    ensures var r := ServeDb(db, key, i); key in r && r[key].ListVal?
  {
  }

  /** Once the first client is gone, the others remain. */
  lemma TailRemains(q: seq<Client>, info0: map<Client, Info>, info: map<Client, Info>)
    requires Remain(q, info0, info) && q != [] && Except(q, q[0]) == q[1..]
    ensures Remain(q[1..], info0, info - {q[0]})
  {
    ExceptLacks(q, q[0]);
  }

  lemma {:induction false} ExceptLacks(q: seq<Client>, c: Client)
    ensures c !in Except(q, c)
  {
    if q != [] {
      ExceptLacks(q[1..], c);
    }
  }

  /** When the list is empty or only other clients are left, the key needs no service. */
  lemma EndServing(w: Waiting, info: map<Client, Info>, db: Db, ready: set<Key>, key: Key)
    requires Awake(w, info, db, ready, {key}) && Stocked(db, {key}) && key in db && db[key].ListVal?
    requires Items(db, key) == [] || forall c :: c in ClientsOf(At(w, key)) ==> c in info && info[c].kind != List
    ensures var db' := if db[key].items == [] then db - {key} else db;
      Awake(w, info, db', ready, {}) && Stocked(db', {})
  {
    var db' := if db[key].items == [] then db - {key} else db;
    forall k | Hungry(w, info, db', k) ensures k in ready {
      var s := At(w, k);
      HungryClient(s, info);
      var j :| 0 <= j < |s| && s[j].client in info && info[s[j].client].kind == List;
      assert ClientsOf(s)[j] == s[j].client;
      assert k != key;
      assert Items(db', k) == Items(db, k);
      assert Hungry(w, info, db, k);
    }
  }

  /** The list that is being served may be changed freely. */
  lemma PopStaysAwake(w: Waiting, info: map<Client, Info>, db: Db, db': Db, ready: set<Key>, key: Key)
    requires Awake(w, info, db, ready, {key}) && Stocked(db, {key})
    requires key in db' && db'[key].ListVal? && (db' == db[key := db'[key]])
    ensures Awake(w, info, db', ready, {key}) && Stocked(db', {key})
  {
    forall k | k != key && Hungry(w, info, db', k) ensures k in ready {
      assert Items(db', k) == Items(db, k);
      assert Hungry(w, info, db, k);
    }
  }

  /** Pushing to a list keeps everybody awake if the key was signalled when it was new. */
  lemma PushStaysAwake(w: Waiting, info: map<Client, Info>, db: Db, ready: set<Key>, ready': set<Key>, key: Key, d: Key,
                       v: Elem, toHead: bool)
    requires Awake(w, info, db, ready, {key}) && Stocked(db, {key}) && ready <= ready'
    requires d in db ==> db[d].ListVal?
    requires d !in db && Awaited(w, info, d, List) ==> d in ready'
    ensures var db' := db[d := ListVal(PushElem(Items(db, d), v, toHead))];
      Awake(w, info, db', ready', {key}) && Stocked(db', {key})
  {
    var db' := db[d := ListVal(PushElem(Items(db, d), v, toHead))];
    forall k | k != key && Hungry(w, info, db', k) ensures k in ready' {
      if k != d || d in db {
        assert Hungry(w, info, db, k);
      }
    }
  }

  lemma RotateStaysAwake(w: Waiting, info: map<Client, Info>, db: Db, ready: set<Key>, key: Key)
    requires Awake(w, info, db, ready, {key})
    ensures Awake(Put(w, key, Rotate(At(w, key))), info, db, ready, {key})
  {
    var w' := Put(w, key, Rotate(At(w, key)));
    forall k | k != key && Hungry(w', info, db, k) ensures k in ready {
      assert At(w', k) == At(w, k);
      assert Hungry(w, info, db, k);
    }
  }

  function PartlyRemoved(w: Waiting, own: map<Key, Node>, todo: set<Key>, k: Key): seq<Node> {
    if k in own && k !in todo then Unlinked(At(w, k), own[k]) else At(w, k)
  }

  /** Some client waits on the key for a value of this kind, or for a module. */
  ghost predicate Awaited(w: Waiting, info: map<Client, Info>, k: Key, kind: Kind) {
    exists n :: n in At(w, k) && n.client in info && (info[n.client].kind == kind || info[n.client].kind == Module)
  }

  /** The quick returns of `signalKeyAsReady` are taken only when nobody waits. */
  lemma SignalIsHeard(w: Waiting, l: Links, next: nat, info: map<Client, Info>, blocked: int, byKind: map<Kind, int>,
                      k: Key, kind: Kind)
    requires Indexed(w, l, next, info) && Counted(info, blocked, byKind)
    ensures kind in byKind && Module in byKind
    ensures Awaited(w, info, k, kind) ==> k in w && (byKind[kind] != 0 || byKind[Module] != 0)
  {
    if Awaited(w, info, k, kind) {
      var n :| n in At(w, k) && n.client in info && (info[n.client].kind == kind || info[n.client].kind == Module);
      CountPositive(info, blocked, byKind, n.client);
    }
  }

  lemma QueueKey(ready: set<Key>, queue: seq<Key>, k: Key)
    requires Queued(ready, queue) && k !in ready
    ensures Queued(ready + {k}, queue + [k])
  {
  }

  lemma NoEmptyLists(w: Waiting, l: Links, next: nat)
    requires Mirrored(w, l, next)
    ensures forall k :: k in w ==> w[k] != []
  {
  }

  lemma LinkedIsListed(w: Waiting, l: Links, next: nat, c: Client, k: Key)
    requires Mirrored(w, l, next) && c in l && k in l[c]
    ensures k in w && l[c][k] in w[k]
  {
    assert Linked(l, c, k);
  }

  /** `c` was appended to the lists of the keys in `done` and nothing else changed. */
  ghost predicate Enlisted(w0: Waiting, w: Waiting, done: set<Key>, c: Client) {
    forall k :: ClientsOf(At(w, k)) == if k in done then ClientsOf(At(w0, k)) + [c] else ClientsOf(At(w0, k))
  }

  /** `c` was linked to the keys in `done` and nothing else changed. */
  ghost predicate LinksAre(l0: Links, l: Links, done: set<Key>, c: Client) {
    && c !in l0
    && l == (if c in l then l0[c := l[c]] else l0)
    && (done != {} ==> c in l)
    && (c in l ==> l[c] != map[])
    && forall k :: Linked(l, c, k) <==> k in done
  }

  lemma StartEnlisting(w: Waiting, l: Links, c: Client)
    requires c !in l
    ensures Enlisted(w, w, {}, c) && LinksAre(l, l, {}, c)
  {
  }

  lemma LinkedMeansDone(l0: Links, l: Links, done: set<Key>, c: Client, k: Key)
    requires LinksAre(l0, l, done, c)
    ensures Linked(l, c, k) <==> k in done
  {
  }

  lemma EnlistOne(w0: Waiting, w: Waiting, l0: Links, l: Links, next: nat, done: set<Key>, c: Client, k: Key)
    requires Mirrored(w, l, next) && Enlisted(w0, w, done, c) && LinksAre(l0, l, done, c) && k !in done
    ensures var n := Node(next, c);
      var w', l' := Put(w, k, At(w, k) + [n]), Link(l, c, k, n);
      Mirrored(w', l', next + 1) && Enlisted(w0, w', done + {k}, c) && LinksAre(l0, l', done + {k}, c)
  {
    hide Mirrored, Put, Link, ClientsOf, At, Enlisted, LinksAre;
    LinkedMeansDone(l0, l, done, c, k);
    AddKeepsMirror(w, l, next, c, k);
    EnlistInList(w0, w, next, done, c, k);
    EnlistInLinks(l0, l, done, c, k, Node(next, c));
  }

  lemma EnlistInList(w0: Waiting, w: Waiting, next: nat, done: set<Key>, c: Client, k: Key)
    requires Enlisted(w0, w, done, c) && k !in done
    ensures Enlisted(w0, Put(w, k, At(w, k) + [Node(next, c)]), done + {k}, c)
  {
    var w' := Put(w, k, At(w, k) + [Node(next, c)]);
    forall j
      ensures ClientsOf(At(w', j)) == if j in done + {k} then ClientsOf(At(w0, j)) + [c] else ClientsOf(At(w0, j))
    {
      if j == k {
        assert ClientsOf(At(w', k)) == ClientsOf(At(w, k)) + [c];
      }
    }
  }

  lemma EnlistInLinks(l0: Links, l: Links, done: set<Key>, c: Client, k: Key, n: Node)
    requires LinksAre(l0, l, done, c)
    ensures LinksAre(l0, Link(l, c, k, n), done + {k}, c)
  {
    var l' := Link(l, c, k, n);
    assert k in l'[c];
    assert forall j :: Linked(l', c, j) <==> Linked(l, c, j) || j == k;
  }

  lemma EndEnlisting(l0: Links, l: Links, done: set<Key>, c: Client)
    requires LinksAre(l0, l, done, c) && done != {}
    ensures l.Keys == l0.Keys + {c}
    ensures forall d :: d in l ==> d == c || (d in l0 && l[d] == l0[d])
    ensures l[c] != map[]
  {
  }

  lemma BlockStaysAwake(w: Waiting, l: Links, next: nat, w': Waiting, info: map<Client, Info>, db: Db, ready: set<Key>,
                        c: Client, i: Info, done: set<Key>)
    requires Awake(w, info, db, ready, {}) && c !in info && Indexed(w, l, next, info)
    requires i.kind == List ==> forall k :: k in done ==> Items(db, k) == []
    requires Enlisted(w, w', done, c)
    ensures Awake(w', info[c := i], db, ready, {})
  {
    forall k | Hungry(w', info[c := i], db, k) ensures k in ready {
      assert k in done ==> i.kind != List;
      assert ClientsOf(At(w', k)) == ClientsOf(At(w, k)) + if k in done then [c] else [];
      assert ListOk(At(w, k), k, l, next);
      hide Mirrored, At, ClientsOf;
      HungryBefore(At(w, k), At(w', k), info, c, i, k in done);
      assert Hungry(w, info, db, k);
    }
  }

  /** Who waits for a list on a queue that at most a client of another kind has joined waited there before. */
  lemma HungryBefore(s: seq<Node>, s': seq<Node>, info: map<Client, Info>, c: Client, i: Info, joined: bool)
    requires (forall n :: n in s ==> n.client != c) && (joined ==> i.kind != List)
    requires ClientsOf(s') == ClientsOf(s) + if joined then [c] else []
    requires exists n :: n in s' && n.client in info[c := i] && info[c := i][n.client].kind == List
    ensures exists n :: n in s && n.client in info && info[n.client].kind == List
  {
    HungryClient(s', info[c := i]);
    var j :| 0 <= j < |s'| && s'[j].client in info[c := i] && info[c := i][s'[j].client].kind == List;
    assert s'[j].client == ClientsOf(s')[j];
    assert j < |s| ==> ClientsOf(s')[j] == ClientsOf(s)[j] == s[j].client && s[j] in s;
  }

  lemma HungryClient(s: seq<Node>, info: map<Client, Info>)
    requires exists n :: n in s && n.client in info && info[n.client].kind == List
    ensures exists j :: 0 <= j < |s| && s[j].client in info && info[s[j].client].kind == List
  {
  }
}
