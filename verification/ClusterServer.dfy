/** The cluster state of one node as it is kept in memory: besides the slot
    table, every node has a slot bitmap and a slot counter, which all operations
    keep in agreement with the table. Each method is proved to do what the handler
    of `ClusterView` with the same name does. */
module ClusterServer {
  import opened Options
  import opened ClusterView

  datatype Node = Node(
    configEpoch: nat, master: bool, slaveof: Option<Id>, failed: bool, votedTime: int,
    slots: set<nat>, numslots: int)

  /** Bitmaps and counters agree with the table, and every owner is a known node. */
  ghost predicate Agree(nodes: map<Id, Node>, owner: seq<Option<Id>>) {
    && |owner| == CLUSTER_SLOTS
    && (forall j | 0 <= j < CLUSTER_SLOTS :: owner[j].Some? ==> owner[j].value in nodes)
    && (forall n | n in nodes :: nodes[n].slots == Bits(owner, n) && nodes[n].numslots == |nodes[n].slots|)
  }

  function PeerOf(node: Node): Peer {
    Peer(node.configEpoch, node.master, node.slaveof, node.failed, node.votedTime)
  }

  function PeersOf(nodes: map<Id, Node>): map<Id, Peer> {
    map n | n in nodes :: PeerOf(nodes[n])
  }

  /** `clusterNodeClearSlotBit`. */
  function ClearBit(node: Node, slot: nat): Node {
    if slot in node.slots then node.(slots := node.slots - {slot}, numslots := node.numslots - 1) else node
  }

  /** `clusterNodeSetSlotBit`. */
  function SetBit(node: Node, slot: nat): Node {
    if slot in node.slots then node else node.(slots := node.slots + {slot}, numslots := node.numslots + 1)
  }

  /** The bit that `clusterDelSlot` asserts to be set is set. */
  lemma DelAgrees(nodes: map<Id, Node>, owner: seq<Option<Id>>, slot: nat)
    requires Agree(nodes, owner) && slot < CLUSTER_SLOTS && owner[slot].Some?
    ensures slot in nodes[owner[slot].value].slots
    ensures var n := owner[slot].value; Agree(nodes[n := ClearBit(nodes[n], slot)], owner[slot := None])
  {
    var n := owner[slot].value;
    var owner' := owner[slot := None];
    assert slot in Bits(owner, n);
    assert Bits(owner', n) == Bits(owner, n) - {slot};
    forall m | m in nodes && m != n ensures Bits(owner', m) == Bits(owner, m) {
    }
  }

  lemma AddAgrees(nodes: map<Id, Node>, owner: seq<Option<Id>>, n: Id, slot: nat)
    requires Agree(nodes, owner) && slot < CLUSTER_SLOTS && owner[slot].None? && n in nodes
    ensures Agree(nodes[n := SetBit(nodes[n], slot)], owner[slot := Some(n)])
  {
    var owner' := owner[slot := Some(n)];
    assert slot !in Bits(owner, n);
    assert Bits(owner', n) == Bits(owner, n) + {slot};
    forall m | m in nodes && m != n ensures Bits(owner', m) == Bits(owner, m) {
    }
  }

  function ForgetNode(nodes: map<Id, Node>, n: Id): map<Id, Node> {
    map m | m in nodes && m != n :: if nodes[m].slaveof == Some(n) then nodes[m].(slaveof := None) else nodes[m]
  }

  lemma ForgetAgrees(nodes: map<Id, Node>, owner: seq<Option<Id>>, n: Id)
    requires Agree(nodes, owner) && Some(n) !in owner
    ensures Agree(ForgetNode(nodes, n), owner) && PeersOf(ForgetNode(nodes, n)) == Forget(PeersOf(nodes), n)
  {
  }

  /** The table when a scan over all slots that binds `slots` to `to` has reached slot `j`. */
  function Swept(was: seq<Option<Id>>, slots: set<nat>, to: Option<Id>, j: nat): (now: seq<Option<Id>>)
    ensures |now| == |was|
  {
    seq(|was|, k requires 0 <= k < |was| => if k < j && k in slots then to else was[k])
  }

  lemma SweepNext(was: seq<Option<Id>>, slots: set<nat>, to: Option<Id>, j: nat)
    requires j < |was|
    ensures Swept(was, slots, to, j)[j] == was[j]
    ensures Swept(was, slots, to, j + 1) ==
      if j in slots then Swept(was, slots, to, j)[j := to] else Swept(was, slots, to, j)
  {
  }

  lemma SweepEnds(v: View, slots: set<nat>, to: Option<Id>)
    ensures Swept(v.owner, slots, to, 0) == v.owner
    ensures Swept(v.owner, slots, to, |v.owner|) == Rebind(v, slots, to).owner
  {
  }

  /** A node whose slots are unbound owns none, whatever else the view holds. */
  lemma RebindClears(v: View, w: View, n: Id)
    requires w.owner == v.owner
    ensures Rebind(w, SlotsOf(w, n), None) == w.(owner := Rebind(v, SlotsOf(v, n), None).owner)
    ensures Rebind(v, SlotsOf(v, n), None) == v.(owner := Rebind(v, SlotsOf(v, n), None).owner)
    ensures Some(n) !in Rebind(w, SlotsOf(w, n), None).owner
  {
  }

  /** The view after a possible collision with `p` is dealt with. */
  ghost function Settle(v: View, p: Packet): View
    requires v.me in v.peers && p.sender in v.peers
  {
    if Collides(v, p) then BumpOwnEpoch(v) else v
  }

  /** How looking at the slots that a PING or PONG claims ends. */
  ghost function ClaimFate(v: View, p: Packet, env: Env): Fate
    requires Valid(v) && p.sender in v.peers
  {
    if v.peers[p.sender].master && Dirty(v, p) then UpdateFate(v, p.sender, p.configEpoch, p.slots, env) else Survives
  }

  /** The PING and PONG handler, step by step. */
  lemma ConfigSteps(v: View, p: Packet, env: Env)
    requires Valid(v) && p.sender in v.peers
    ensures
      var v1 := ClusterView.SwitchRole(v, p);
      && Valid(v1) && v1.me == v.me && v1.peers.Keys == v.peers.Keys
      && ConfigFate(v, p, env) == ClaimFate(v1, p, env)
      && var v2 := ClusterView.TakeClaims(v1, p, env);
         && Valid(v2) && v2.peers.Keys == v.peers.Keys
         && ClusterView.ProcessConfig(v, p, env) ==
              Outcome(Settle(v2, p), if Dirty(v1, p) then Correction(v2, p, 0) else {})
  {
    SwitchRoleValid(v, p);
    TakeClaimsValid(ClusterView.SwitchRole(v, p), p, env);
  }

  lemma TickReset(v: View, env: Env)
    requires Valid(v) && ClusterView.MayFailover(v, env) && env.now - v.election.time > AuthTimeout(env) * 2
    ensures
      var w := ResetElection(v, env);
      Valid(w) && Tick(v, env) == Outcome(w, set n | n in Siblings(v) :: Build(w, n, Pong))
  {
  }

  lemma TickContinues(v: View, env: Env)
    requires Valid(v) && ClusterView.MayFailover(v, env) && env.now - v.election.time <= AuthTimeout(env) * 2
    ensures
      var d := Delayed(v, env);
      && Valid(d)
      && (env.now < d.election.time || env.now - v.election.time > AuthTimeout(env) ==> Tick(v, env) == Outcome(d, {}))
      && (env.now >= d.election.time && env.now - v.election.time <= AuthTimeout(env) ==>
            && (!v.election.sent ==>
                  && Valid(ClusterView.RequestVotes(d))
                  && Tick(v, env) == Outcome(ClusterView.RequestVotes(d),
                                             ClusterView.Broadcast(ClusterView.RequestVotes(d), AuthRequest(v.mfEnd))))
            && (v.election.sent ==> d == v)
            && (v.election.sent && v.election.count >= NeededQuorum(v) ==>
                  && Valid(ClusterView.Promote(v, env))
                  && Tick(v, env) == Outcome(ClusterView.Promote(v, env),
                                             ClusterView.Broadcast(ClusterView.Promote(v, env), Pong)))
            && (v.election.sent && v.election.count < NeededQuorum(v) ==> Tick(v, env) == Outcome(d, {})))
  {
    PromoteValid(v, env);
  }

  class Server {
    const me: Id
    var currentEpoch: nat
    var lastVoteEpoch: nat
    var nodes: map<Id, Node>
    const owner: array<Option<Id>>
    var importing: map<nat, Id>
    var migrating: map<nat, Id>
    var size: nat
    var election: Election
    var mfEnd: bool
    var mfCanStart: bool

    /** A node that knows only itself, a master without slots. */
    constructor (me: Id)
      ensures Ok() && fresh(owner) && this.me == me && importing == map[] && migrating == map[]
      ensures Abs() == View(me, 0, 0, map[me := Peer(0, true, None, false, 0)],
                            seq(CLUSTER_SLOTS, _ => None), {}, 1, Election(0, 0, false, 0), false, false)
    {
      this.me := me;
      currentEpoch, lastVoteEpoch, size := 0, 0, 1;
      nodes := map[me := Node(0, true, None, false, 0, {}, 0)];
      owner := new Option<Id>[CLUSTER_SLOTS](_ => None);
      importing, migrating := map[], map[];
      election := Election(0, 0, false, 0);
      mfEnd, mfCanStart := false, false;
      new;
      assert owner[..] == seq(CLUSTER_SLOTS, _ => None);
      assert Bits(owner[..], me) == {};
      AbsValid();
    }

    ghost predicate Ok()
      reads this, owner
    {
      && Agree(nodes, owner[..])
      && me in nodes
      && (forall n {:trigger nodes[n].slaveof} | n in nodes ::
            nodes[n].slaveof.Some? ==> nodes[n].slaveof.value in nodes)
    }

    ghost function Abs(): View
      reads this, owner
    {
      View(me, currentEpoch, lastVoteEpoch, PeersOf(nodes), owner[..], importing.Keys, size, election, mfEnd,
           mfCanStart)
    }

    /** What is kept in memory is a well-formed view with the same bitmaps. */
    lemma AbsValid()
      requires Ok()
      ensures Valid(Abs())
      ensures forall n | n in nodes :: SlotsOf(Abs(), n) == nodes[n].slots
    {
    }

    /** `clusterDelSlot`. */
    method DelSlot(slot: nat) returns (ok: bool)
      requires Ok() && slot < CLUSTER_SLOTS
      modifies this`nodes, owner
      ensures Ok() && owner[..] == old(owner[..])[slot := None] && PeersOf(nodes) == old(PeersOf(nodes))
      ensures nodes.Keys == old(nodes.Keys) && ok == old(owner[slot].Some?)
    {
      hide Bits;
      var o := owner[slot];
      if o.None? {
        return false;
      }
      var n := o.value;
      DelAgrees(nodes, owner[..], slot);
      nodes := nodes[n := ClearBit(nodes[n], slot)];
      owner[slot] := None;
      assert owner[..] == old(owner[..])[slot := None];
      return true;
    }

    /** `clusterAddSlot`. */
    method AddSlot(n: Id, slot: nat) returns (ok: bool)
      requires Ok() && slot < CLUSTER_SLOTS && n in nodes
      modifies this`nodes, owner
      ensures Ok() && PeersOf(nodes) == old(PeersOf(nodes))
      ensures nodes.Keys == old(nodes.Keys) && ok == old(owner[slot].None?)
      ensures owner[..] == if ok then old(owner[..])[slot := Some(n)] else old(owner[..])
    {
      if owner[slot].Some? {
        return false;
      }
      AddAgrees(nodes, owner[..], n, slot);
      nodes := nodes[n := SetBit(nodes[n], slot)];
      owner[slot] := Some(n);
      assert owner[..] == old(owner[..])[slot := Some(n)];
      return true;
    }

    /** `clusterDelNodeSlots`. */
    method DelNodeSlots(n: Id) returns (deleted: int)
      requires Ok() && n in nodes
      modifies this`nodes, owner
      ensures Ok() && Abs() == Rebind(old(Abs()), SlotsOf(old(Abs()), n), None)
      ensures deleted == old(nodes[n].numslots) && nodes.Keys == old(nodes.Keys)
    {
      deleted := 0;
      ghost var was, mine := owner[..], SlotsOf(Abs(), n);
      SweepEnds(Abs(), mine, None);
      for j := 0 to CLUSTER_SLOTS
        invariant Ok() && PeersOf(nodes) == old(PeersOf(nodes)) && nodes.Keys == old(nodes.Keys)
        invariant owner[..] == Swept(was, mine, None, j)
        invariant deleted == old(nodes[n].numslots) - nodes[n].numslots
      {
        SweepNext(was, mine, None, j);
        BitsNow(n, j, was);
        if j in nodes[n].slots {
          BitGoes(owner[..], n, j);
          var _ := DelSlot(j);
          deleted := deleted + 1;
        }
      }
      assert nodes[n].slots == {} by {
        assert Bits(owner[..], n) == {};
      }
    }

    /** `clusterDelNode`: its slots become unassigned, imports from it and migrations to it end, and its replicas
        have no known master. */
    method DelNode(n: Id)
      requires Ok() && n in nodes && n != me
      modifies this`nodes, this`importing, this`migrating, owner
      ensures Ok() && Abs() == ClusterView.DelNode(old(Abs()), n, importing.Keys)
      ensures importing == map j | j in old(importing) && old(importing)[j] != n :: old(importing)[j]
      ensures migrating == map j | j in old(migrating) && old(migrating)[j] != n :: old(migrating)[j]
    {
      hide Agree, Rebind, SlotsOf, Forget;
      importing := map j | j in importing && importing[j] != n :: importing[j];
      migrating := map j | j in migrating && migrating[j] != n :: migrating[j];
      RebindClears(old(Abs()), Abs(), n);
      var _ := DelNodeSlots(n);
      ForgetAgrees(nodes, owner[..], n);
      nodes := ForgetNode(nodes, n);
    }

    /** Change what is known of node `n`, except its slots. */
    method SetNode(n: Id, node: Node)
      requires Ok() && n in nodes && node.slots == nodes[n].slots && node.numslots == nodes[n].numslots
      requires node.slaveof.Some? ==> node.slaveof.value in nodes
      modifies this`nodes
      ensures Ok() && Abs() == WithPeer(old(Abs()), n, PeerOf(node))
      ensures nodes == old(nodes)[n := node] && nodes.Keys == old(nodes.Keys)
    {
      PeersUpdate(nodes, n, node);
      nodes := nodes[n := node];
    }

    /** `clusterSetNodeAsMaster`. */
    method SetNodeAsMaster(n: Id)
      requires Ok() && n in nodes
      modifies this`nodes
      ensures Ok() && Abs() == ClusterView.SetNodeAsMaster(old(Abs()), n) && nodes.Keys == old(nodes.Keys)
    {
      if !nodes[n].master {
        SetNode(n, nodes[n].(master := true, slaveof := None));
      }
    }

    /** `clusterSetMaster`, with its two assertions as preconditions. */
    method SetMaster(n: Id)
      requires Ok() && n in nodes && n != me && nodes[me].numslots == 0
      modifies this
      ensures Ok() && Abs() == ClusterView.SetMaster(old(Abs()), n) && nodes.Keys == old(nodes.Keys)
      ensures migrating == if old(nodes[me].master) then map[] else old(migrating)
    {
      hide Agree, SlotsOf;
      if nodes[me].master {
        importing, migrating := map[], map[];
      }
      SetNode(me, nodes[me].(master := false, slaveof := Some(n)));
      mfEnd, mfCanStart := false, false;
    }

    /** Rebind slot `j`, as the slot scans do. */
    method MoveSlot(n: Id, j: nat)
      requires Ok() && j < CLUSTER_SLOTS && n in nodes
      modifies this`nodes, owner
      ensures Ok() && owner[..] == old(owner[..])[j := Some(n)] && PeersOf(nodes) == old(PeersOf(nodes))
      ensures nodes.Keys == old(nodes.Keys)
    {
      var _ := DelSlot(j);
      var _ := AddSlot(n, j);
    }

    /** The test of `clusterUpdateSlotsConfigWith` on one slot. */
    method MayTake(sender: Id, epoch: nat, j: nat) returns (may: bool)
      requires Ok() && j < CLUSTER_SLOTS
      ensures Valid(Abs()) && may == Takes(Abs(), sender, epoch, j)
    {
      AbsValid();
      may := owner[j] != Some(sender) && j !in importing
             && (owner[j].None? || nodes[owner[j].value].configEpoch < epoch);
    }

    /** The scan of `clusterUpdateSlotsConfigWith`: bind what may be taken, count the slots
        claimed and those lost by the current master. */
    method TakeSlots(sender: Id, epoch: nat, slots: set<nat>, cur: Option<Id>) returns (claimed: int, lost: int)
      requires Ok() && sender in nodes
      modifies this`nodes, owner
      ensures Ok() && Valid(old(Abs()))
      ensures Abs() == Rebind(old(Abs()), Taken(old(Abs()), sender, epoch, slots), Some(sender))
      ensures nodes.Keys == old(nodes.Keys)
      ensures claimed == |Claimed(old(Abs()), slots)|
      ensures lost == |OwnedBy(old(owner[..]), Taken(old(Abs()), sender, epoch, slots), cur)|
    {
      hide Agree, SlotsOf, Bits, Upto, Swept;
      ghost var v := Abs();
      AbsValid();
      ghost var was, taken, all := owner[..], Taken(v, sender, epoch, slots), Claimed(v, slots);
      ghost var ours := OwnedBy(was, taken, cur);
      SweepEnds(v, taken, Some(sender));
      UptoAll(all, CLUSTER_SLOTS);
      UptoAll(ours, CLUSTER_SLOTS);
      claimed, lost := 0, 0;
      for j := 0 to CLUSTER_SLOTS
        invariant Ok() && PeersOf(nodes) == v.peers && nodes.Keys == v.peers.Keys
        invariant owner[..] == Swept(was, taken, Some(sender), j)
        invariant claimed == |Upto(all, j)| && lost == |Upto(ours, j)|
      {
        SweepNext(was, taken, Some(sender), j);
        UptoNext(all, j);
        UptoNext(ours, j);
        var may := MayTake(sender, epoch, j);
        SameTakes(v, Abs(), sender, epoch, j);
        if j in slots {
          claimed := claimed + 1;
          if may {
            if owner[j] == cur {
              lost := lost + 1;
            }
            MoveSlot(sender, j);
          }
        }
      }
    }

    /** `clusterUpdateSlotsConfigWith`. Table, bitmaps and counters agree however it ends. */
    method UpdateSlotsConfigWith(sender: Id, epoch: nat, slots: set<nat>, env: Env) returns (fate: Fate)
      requires Ok() && sender in nodes
      modifies this, owner
      ensures Ok() && Valid(old(Abs())) && nodes.Keys == old(nodes.Keys)
      ensures fate == UpdateFate(old(Abs()), sender, epoch, slots, env)
      ensures fate == Survives ==> Abs() == ClusterView.UpdateSlotsConfigWith(old(Abs()), sender, epoch, slots, env)
      ensures fate != Survives ==> Abs() == Moved(old(Abs()), sender, epoch, slots)
    {
      hide Agree, Takes, Taken, Rebind, SlotsOf;
      AbsValid();
      fate := Survives;
      if sender == me {
        return;
      }
      var cur := if nodes[me].master then Some(me) else nodes[me].slaveof;
      ghost var v := Abs();
      var claimed, lost := TakeSlots(sender, epoch, slots, cur);
      LostIsOwnedBy(v, sender, epoch, slots);
      if env.noRedirection || lost == 0 {
        return;
      }
      if cur.None? {
        return NoMaster;
      }
      BitsOf(cur.value);
      BitsOf(me);
      if nodes[cur.value].numslots == 0 && (env.allowReplicaMigration || claimed == lost) {
        if nodes[me].numslots != 0 {
          return OwnsSlots;
        }
        SetMaster(sender);
      }
    }

    lemma BitsOf(n: Id)
      requires Ok() && n in nodes
      ensures nodes[n].slots == SlotsOf(Abs(), n) && nodes[n].numslots == |SlotsOf(Abs(), n)|
      ensures nodes[n].numslots > 0 <==> SlotsOf(Abs(), n) != {}
    {
      AbsValid();
    }

    // ----------------------------------------------------------------
    // Packets sent

    /** `clusterBuildMessageHdr`. */
    method Header(dst: Id, body: Body) returns (p: Packet)
      requires Ok()
      ensures Valid(Abs()) && p == Build(Abs(), dst, body)
    {
      AbsValid();
      var shown := if !nodes[me].master && nodes[me].slaveof.Some? then nodes[me].slaveof.value else me;
      BitsOf(shown);
      p := Packet(dst, me, currentEpoch, nodes[shown].configEpoch, nodes[me].slaveof, nodes[shown].slots, body);
    }

    /** The loop of `clusterBroadcastMessage` and `clusterBroadcastPong`. */
    method SendTo(targets: set<Id>, body: Body) returns (sent: set<Packet>)
      requires Ok()
      ensures Valid(Abs()) && sent == SentTo(Abs(), targets, body)
    {
      AbsValid();
      sent := {};
      var left := targets;
      ghost var v, done := Abs(), {};
      while left != {}
        invariant left + done == targets
        invariant sent == SentTo(v, done, body)
        decreases left
      {
        var n :| n in left;
        var p := Header(n, body);
        SentToNext(v, done, n, body);
        sent := sent + {p};
        left, done := left - {n}, done + {n};
      }
      assert done == targets;
    }

    /** The scan that answers an outdated claim with an UPDATE. */
    method Correct(p: Packet) returns (sent: set<Packet>)
      requires Ok()
      ensures Valid(Abs()) && sent == Correction(Abs(), p, 0)
    {
      AbsValid();
      for j := 0 to CLUSTER_SLOTS
        invariant Correction(Abs(), p, 0) == Correction(Abs(), p, j)
      {
        if j in p.slots && owner[j].Some? && owner[j].value != p.sender {
          var n := owner[j].value;
          if nodes[n].configEpoch > p.configEpoch {
            BitsOf(n);
            var q := Header(p.sender, Update(n, nodes[n].configEpoch, nodes[n].slots));
            return {q};
          }
        }
      }
      return {};
    }

    // ----------------------------------------------------------------
    // Packets received

    method TakeHeader(p: Packet)
      requires Ok() && p.sender in nodes
      modifies this`nodes, this`currentEpoch
      ensures Ok() && Abs() == ClusterView.TakeHeader(old(Abs()), p) && nodes.Keys == old(nodes.Keys)
    {
      SetNode(p.sender, nodes[p.sender].(configEpoch := Max(nodes[p.sender].configEpoch, p.configEpoch)));
      currentEpoch := Max(currentEpoch, p.currentEpoch);
    }

    /** A master turned into a replica. */
    method Demote(n: Id)
      requires Ok() && n in nodes
      modifies this`nodes, owner
      ensures Ok() && nodes.Keys == old(nodes.Keys)
      ensures var v := old(Abs()); Abs() == WithPeer(Rebind(v, SlotsOf(v, n), None), n, v.peers[n].(master := false))
    {
      ghost var v := Abs();
      var _ := DelNodeSlots(n);
      assert PeersOf(nodes)[n] == v.peers[n];
      SetNode(n, nodes[n].(master := false));
    }

    method SwitchRole(p: Packet)
      requires Ok() && p.sender in nodes
      modifies this`nodes, owner
      ensures Ok() && Abs() == ClusterView.SwitchRole(old(Abs()), p) && nodes.Keys == old(nodes.Keys)
    {
      if p.slaveof.None? {
        SetNodeAsMaster(p.sender);
      } else {
        if nodes[p.sender].master {
          Demote(p.sender);
        }
        if p.slaveof.value in nodes {
          SetNode(p.sender, nodes[p.sender].(slaveof := p.slaveof));
        }
      }
    }

    /** `clusterHandleConfigEpochCollision`, with the test made by its caller. */
    method HandleCollision(p: Packet)
      requires Ok() && p.sender in nodes
      modifies this`nodes, this`currentEpoch
      ensures Ok() && nodes.Keys == old(nodes.Keys)
      ensures Abs() == Settle(old(Abs()), p)
    {
      if nodes[me].master && nodes[p.sender].master && p.configEpoch == nodes[me].configEpoch
         && nodes[p.sender].configEpoch == nodes[me].configEpoch && me < p.sender {
        currentEpoch := currentEpoch + 1;
        SetNode(me, nodes[me].(configEpoch := currentEpoch));
      }
    }

    /** Do the claimed slots differ from the bitmap kept for the sender or its master? */
    method IsDirty(p: Packet) returns (dirty: bool)
      requires Ok() && p.sender in nodes
      ensures dirty == Dirty(Abs(), p)
    {
      var m := if nodes[p.sender].master then Some(p.sender) else nodes[p.sender].slaveof;
      dirty := m.Some? && nodes[m.value].slots != p.slots;
      if m.Some? {
        BitsOf(m.value);
      }
    }

    method TakeClaims(p: Packet, dirty: bool, env: Env) returns (fate: Fate)
      requires Ok() && p.sender in nodes && dirty == Dirty(Abs(), p)
      modifies this, owner
      ensures Ok() && Valid(old(Abs())) && nodes.Keys == old(nodes.Keys)
      ensures fate == ClaimFate(old(Abs()), p, env)
      ensures fate == Survives ==> Abs() == ClusterView.TakeClaims(old(Abs()), p, env)
    {
      hide Agree, SlotsOf, UpdateFate;
      AbsValid();
      fate := Survives;
      if dirty && nodes[p.sender].master {
        fate := UpdateSlotsConfigWith(p.sender, p.configEpoch, p.slots, env);
      }
    }

    /** The PING and PONG part of `clusterProcessPacket`. */
    method ProcessConfig(p: Packet, env: Env) returns (sent: set<Packet>, fate: Fate)
      requires Ok() && p.sender in nodes
      modifies this, owner
      ensures Ok() && Valid(old(Abs())) && nodes.Keys == old(nodes.Keys)
      ensures fate == ConfigFate(old(Abs()), p, env)
      ensures fate == Survives ==> Outcome(Abs(), sent) == ClusterView.ProcessConfig(old(Abs()), p, env)
    {
      hide Agree, SlotsOf;
      AbsValid();
      ConfigSteps(Abs(), p, env);
      SwitchRole(p);
      var dirty := IsDirty(p);
      fate := TakeClaims(p, dirty, env);
      sent := {};
      if fate != Survives {
        return;
      }
      if dirty {
        sent := Correct(p);
      }
      HandleCollision(p);
    }

    /** The scan of `clusterSendFailoverAuthIfNeeded`: no claimed slot has an owner with a greater epoch. */
    method ClaimIsCurrent(p: Packet) returns (current: bool)
      requires Ok()
      ensures current <==> forall j | 0 <= j < CLUSTER_SLOTS && j in p.slots ::
        owner[j].None? || nodes[owner[j].value].configEpoch <= p.configEpoch
    {
      for j := 0 to CLUSTER_SLOTS
        invariant forall k | 0 <= k < j && k in p.slots ::
          owner[k].None? || nodes[owner[k].value].configEpoch <= p.configEpoch
      {
        if j in p.slots && owner[j].Some? && nodes[owner[j].value].configEpoch > p.configEpoch {
          return false;
        }
      }
      return true;
    }

    /** The tests of `clusterSendFailoverAuthIfNeeded`. */
    method MayVote(p: Packet, env: Env) returns (may: bool)
      requires Ok() && p.sender in nodes && p.body.AuthRequest?
      ensures Valid(Abs()) && may == CanVote(Abs(), p, env)
    {
      AbsValid();
      BitsOf(me);
      var candidate := nodes[p.sender];
      if !nodes[me].master || nodes[me].numslots == 0 || p.currentEpoch < currentEpoch || lastVoteEpoch == currentEpoch
         || candidate.master || candidate.slaveof.None? {
        return false;
      }
      var m := nodes[candidate.slaveof.value];
      if (!m.failed && !p.body.forceAck) || env.now - m.votedTime < env.nodeTimeout * 2 {
        return false;
      }
      may := ClaimIsCurrent(p);
    }

    /** `clusterSendFailoverAuthIfNeeded`. */
    method Vote(p: Packet, env: Env) returns (sent: set<Packet>)
      requires Ok() && p.sender in nodes && p.body.AuthRequest?
      modifies this`nodes, this`lastVoteEpoch
      ensures Ok() && Valid(old(Abs())) && nodes.Keys == old(nodes.Keys)
      ensures Outcome(Abs(), sent) == ClusterView.Vote(old(Abs()), p, env)
    {
      AbsValid();
      var may := MayVote(p, env);
      if !may {
        return {};
      }
      var m := nodes[p.sender].slaveof.value;
      lastVoteEpoch := currentEpoch;
      SetNode(m, nodes[m].(votedTime := env.now));
      var ack := Header(p.sender, AuthAck);
      return {ack};
    }

    method CountVote(p: Packet)
      requires Ok() && p.sender in nodes
      modifies this`election
      ensures Ok() && Abs() == ClusterView.CountVote(old(Abs()), p)
    {
      BitsOf(p.sender);
      if nodes[p.sender].master && nodes[p.sender].numslots > 0 && p.currentEpoch >= election.epoch {
        election := election.(count := election.count + 1);
      }
    }

    method ProcessUpdate(p: Packet, env: Env) returns (fate: Fate)
      requires Ok() && p.body.Update?
      modifies this, owner
      ensures Ok() && Valid(old(Abs())) && nodes.Keys == old(nodes.Keys)
      ensures fate == ReportFate(old(Abs()), p, env)
      ensures fate == Survives ==> Abs() == ClusterView.ProcessUpdate(old(Abs()), p, env)
    {
      hide Agree, SlotsOf, UpdateFate;
      AbsValid();
      var n := p.body.node;
      if n !in nodes || nodes[n].configEpoch >= p.body.epoch {
        return Survives;
      }
      SetNodeAsMaster(n);
      SetNode(n, nodes[n].(configEpoch := p.body.epoch));
      fate := UpdateSlotsConfigWith(n, p.body.epoch, p.body.claim, env);
    }

    method ProcessFail(p: Packet)
      requires Ok() && p.body.Fail?
      modifies this`nodes
      ensures Ok() && nodes.Keys == old(nodes.Keys) && Abs() == ClusterView.ProcessFail(old(Abs()), p)
    {
      var n := p.body.about;
      if n in nodes && n != me {
        SetNode(n, nodes[n].(failed := true));
      }
    }

    method Dispatch(p: Packet, env: Env) returns (sent: set<Packet>, fate: Fate)
      requires Ok() && p.sender in nodes
      modifies this, owner
      ensures Ok() && Valid(old(Abs())) && nodes.Keys == old(nodes.Keys)
      ensures fate == DispatchFate(old(Abs()), p, env)
      ensures fate == Survives ==> Outcome(Abs(), sent) == ClusterView.Dispatch(old(Abs()), p, env)
    {
      hide Agree, SlotsOf;
      AbsValid();
      sent, fate := {}, Survives;
      match p.body {
        case Ping =>
          var q := Header(p.sender, Pong);
          sent, fate := ProcessConfig(p, env);
          sent := sent + {q};
        case Pong => sent, fate := ProcessConfig(p, env);
        case Fail(_) => ProcessFail(p);
        case AuthRequest(_) => sent := Vote(p, env);
        case AuthAck => CountVote(p);
        case Update(_, _, _) => fate := ProcessUpdate(p, env);
        case Other =>
      }
    }

    /** `clusterProcessPacket`. From every state in which table, bitmaps and counters agree, whatever the packet,
        they agree afterwards, also when the server is stopped by the packet. */
    method ProcessPacket(p: Packet, env: Env) returns (sent: set<Packet>, fate: Fate)
      requires Ok()
      modifies this, owner
      ensures Ok() && Valid(old(Abs())) && nodes.Keys == old(nodes.Keys)
      ensures fate == ProcessFate(old(Abs()), p, env)
      ensures fate == Survives ==> Outcome(Abs(), sent) == Process(old(Abs()), p, env)
    {
      hide Agree, SlotsOf;
      AbsValid();
      sent, fate := {}, Survives;
      if p.sender in nodes {
        TakeHeader(p);
        sent, fate := Dispatch(p, env);
      } else if p.body.Ping? {
        var q := Header(p.sender, Pong);
        sent := {q};
      }
    }

    // ----------------------------------------------------------------
    // Epochs and failover

    /** `clusterGetMaxEpoch`. */
    method MaxEpoch() returns (m: nat)
      requires Ok()
      ensures currentEpoch <= m && forall n | n in nodes :: nodes[n].configEpoch <= m
      ensures m == currentEpoch || exists n | n in nodes :: nodes[n].configEpoch == m
    {
      m := 0;
      var left := nodes.Keys;
      while left != {}
        invariant left <= nodes.Keys
        invariant forall n | n in nodes && n !in left :: nodes[n].configEpoch <= m
        invariant m == 0 || exists n | n in nodes :: nodes[n].configEpoch == m
        decreases left
      {
        var n :| n in left;
        m := Max(m, nodes[n].configEpoch);
        left := left - {n};
      }
      m := Max(m, currentEpoch);
    }

    /** `clusterBumpConfigEpochWithoutConsensus`. */
    method BumpWithoutConsensus() returns (bumped: bool)
      requires Ok()
      modifies this`nodes, this`currentEpoch
      ensures Ok() && nodes.Keys == old(nodes.Keys) && Abs() == ClusterView.BumpWithoutConsensus(old(Abs()))
      ensures bumped <==> nodes[me].configEpoch == currentEpoch == old(currentEpoch) + 1
    {
      hide Agree, SlotsOf, Valid;
      var max := MaxEpoch();
      assert nodes[me].configEpoch == max <==> HasGreatestEpoch(Abs()) by {
        assert forall n | n in nodes :: Abs().peers[n].configEpoch == nodes[n].configEpoch;
      }
      bumped := nodes[me].configEpoch == 0 || nodes[me].configEpoch != max;
      if bumped {
        currentEpoch := currentEpoch + 1;
        SetNode(me, nodes[me].(configEpoch := currentEpoch));
      }
    }

    /** The `size` computed by `clusterUpdateState`. */
    method UpdateSize()
      requires Ok()
      modifies this`size
      ensures Ok() && Abs() == old(Abs()).(size := ClusterSize(old(Abs())))
    {
      hide Agree, SlotsOf, Valid, Counted, ClusterSize;
      AbsValid();
      ghost var v := Abs();
      var count, left := 0, nodes.Keys;
      CountedEnds(v);
      assert nodes.Keys == v.peers.Keys;
      while left != {}
        invariant left <= nodes.Keys && count == |Counted(v, left)|
        decreases left
      {
        var n :| n in left;
        BitsOf(n);
        CountedNext(v, left, n);
        if nodes[n].master && nodes[n].numslots > 0 {
          count := count + 1;
        }
        left := left - {n};
      }
      size := count;
    }

    /** The scan of `clusterFailoverReplaceYourMaster`. */
    method TakeOver(from: Id)
      requires Ok() && from in nodes
      modifies this`nodes, owner
      ensures Ok() && nodes.Keys == old(nodes.Keys)
      ensures Abs() == Rebind(old(Abs()), SlotsOf(old(Abs()), from), Some(me))
    {
      ghost var was, theirs := owner[..], SlotsOf(Abs(), from);
      SweepEnds(Abs(), theirs, Some(me));
      for j := 0 to CLUSTER_SLOTS
        invariant Ok() && PeersOf(nodes) == old(PeersOf(nodes)) && nodes.Keys == old(nodes.Keys)
        invariant owner[..] == Swept(was, theirs, Some(me), j)
      {
        SweepNext(was, theirs, Some(me), j);
        BitsNow(from, j, was);
        if j in nodes[from].slots {
          MoveSlot(me, j);
        }
      }
    }

    /** `clusterFailoverReplaceYourMaster`. */
    method ReplaceYourMaster(env: Env)
      requires Ok()
      modifies this, owner
      ensures Ok() && nodes.Keys == old(nodes.Keys) && Abs() == ClusterView.ReplaceYourMaster(old(Abs()), env)
    {
      hide Agree, SlotsOf, Valid, Rebind;
      if !nodes[me].master && nodes[me].slaveof.Some? {
        Promote(nodes[me].slaveof.value);
        mfEnd, mfCanStart := false, false;
        if env.stateUpdated {
          UpdateSize();
        }
      }
    }

    method Promote(from: Id)
      requires Ok() && from in nodes
      modifies this`nodes, owner
      ensures Ok() && nodes.Keys == old(nodes.Keys)
      ensures var v := old(Abs());
        Abs() == Rebind(ClusterView.SetNodeAsMaster(v, me), SlotsOf(v, from), Some(me))
    {
      ghost var v := Abs();
      SetNodeAsMaster(me);
      assert SlotsOf(Abs(), from) == SlotsOf(v, from);
      TakeOver(from);
    }

    method MayFailover(env: Env) returns (may: bool)
      requires Ok()
      ensures Valid(Abs()) && may == ClusterView.MayFailover(Abs(), env)
    {
      AbsValid();
      var manual := mfEnd && mfCanStart;
      if nodes[me].master || nodes[me].slaveof.None? {
        return false;
      }
      var m := nodes[me].slaveof.value;
      BitsOf(m);
      may := (nodes[m].failed || manual) && (!env.noFailover || manual) && nodes[m].numslots != 0
             && (!env.dataTooOld || manual);
    }

    /** `clusterHandleSlaveFailover`. */
    method HandleSlaveFailover(env: Env) returns (sent: set<Packet>)
      requires Ok()
      modifies this, owner
      ensures Ok() && Valid(old(Abs())) && nodes.Keys == old(nodes.Keys)
      ensures Outcome(Abs(), sent) == Tick(old(Abs()), env)
    {
      sent := {};
      var may := MayFailover(env);
      if may {
        if env.now - election.time > AuthTimeout(env) * 2 {
          TickReset(Abs(), env);
          sent := StartOver(env);
        } else {
          sent := ContinueElection(env);
        }
      }
    }

    /** The election scheduled before: put it off, let it expire, ask for votes or win. */
    method ContinueElection(env: Env) returns (sent: set<Packet>)
      requires Ok() && Valid(Abs()) && ClusterView.MayFailover(Abs(), env)
      requires env.now - election.time <= AuthTimeout(env) * 2
      modifies this, owner
      ensures Ok() && nodes.Keys == old(nodes.Keys)
      ensures Outcome(Abs(), sent) == Tick(old(Abs()), env)
    {
      sent := {};
      var age := env.now - election.time;
      ghost var v := Abs();
      TickContinues(v, env);
      if !election.sent && !mfEnd {
        election := election.(time := election.time + env.addedDelay);
      }
      assert Abs() == Delayed(v, env);
      if env.now >= election.time && age <= AuthTimeout(env) {
        if !election.sent {
          sent := RequestVotes();
        } else if election.count >= size / 2 + 1 {
          sent := WinElection(env);
        }
      }
    }

    method StartOver(env: Env) returns (sent: set<Packet>)
      requires Ok()
      modifies this`election
      ensures Ok() && Valid(old(Abs())) && Abs() == ResetElection(old(Abs()), env)
      ensures sent == set n | n in Siblings(old(Abs())) :: Build(Abs(), n, Pong)
    {
      hide Agree, SlotsOf, Valid, Siblings, Build;
      AbsValid();
      ghost var v := Abs();
      election := election.(count := 0, sent := false, time := if mfEnd then env.now else env.now + env.delay);
      SameSiblings(v, Abs());
      var siblings := LocalReplicas();
      sent := SendTo(siblings, Pong);
    }

    /** The receivers of `clusterBroadcastPong` to the replicas of the same master. */
    method LocalReplicas() returns (siblings: set<Id>)
      requires Ok()
      ensures siblings == Siblings(Abs())
    {
      hide Agree;
      siblings := set n | n in nodes && n != me && !nodes[n].master && nodes[n].slaveof.Some? &&
                          (nodes[n].slaveof == Some(me) || nodes[n].slaveof == nodes[me].slaveof);
    }

    method RequestVotes() returns (sent: set<Packet>)
      requires Ok()
      modifies this`election, this`currentEpoch
      ensures Ok() && Valid(Abs()) && Abs() == ClusterView.RequestVotes(old(Abs()))
      ensures sent == ClusterView.Broadcast(Abs(), AuthRequest(mfEnd))
    {
      currentEpoch := currentEpoch + 1;
      election := election.(epoch := currentEpoch, sent := true);
      sent := SendTo(nodes.Keys - {me}, AuthRequest(mfEnd));
      assert sent == ClusterView.Broadcast(Abs(), AuthRequest(mfEnd));
    }

    method WinElection(env: Env) returns (sent: set<Packet>)
      requires Ok()
      modifies this, owner
      ensures Ok() && nodes.Keys == old(nodes.Keys)
      ensures Valid(Abs()) && Abs() == ClusterView.Promote(old(Abs()), env)
      ensures sent == ClusterView.Broadcast(Abs(), Pong)
    {
      SetNode(me, nodes[me].(configEpoch := Max(nodes[me].configEpoch, election.epoch)));
      ReplaceYourMaster(env);
      sent := SendTo(nodes.Keys - {me}, Pong);
      assert sent == ClusterView.Broadcast(Abs(), Pong);
    }

    lemma BitsNow(n: Id, j: nat, was: seq<Option<Id>>)
      requires Ok() && n in nodes && j < CLUSTER_SLOTS && |was| == CLUSTER_SLOTS && owner[j] == was[j]
      ensures j in nodes[n].slots <==> was[j] == Some(n)
    {
      assert j in Bits(owner[..], n) <==> owner[..][j] == Some(n);
    }
  }

  ghost function OwnedBy(owner: seq<Option<Id>>, slots: set<nat>, n: Option<Id>): set<nat> {
    set j | j in slots && j < |owner| && owner[j] == n
  }

  ghost function Upto(slots: set<nat>, j: nat): set<nat> {
    set k | k in slots && k < j
  }

  lemma UptoNext(slots: set<nat>, j: nat)
    ensures |Upto(slots, j + 1)| == |Upto(slots, j)| + if j in slots then 1 else 0
  {
    assert Upto(slots, j + 1) == if j in slots then Upto(slots, j) + {j} else Upto(slots, j);
  }

  lemma UptoAll(slots: set<nat>, n: nat)
    requires forall j | j in slots :: j < n
    ensures Upto(slots, n) == slots && Upto(slots, 0) == {}
  {
  }

  lemma PeersUpdate(nodes: map<Id, Node>, n: Id, node: Node)
    ensures PeersOf(nodes[n := node]) == PeersOf(nodes)[n := PeerOf(node)]
  {
  }

  /** Whether a slot may be taken depends on its own entry and on the epochs only. */
  lemma SameTakes(v: View, w: View, sender: Id, epoch: nat, j: nat)
    requires Valid(v) && Valid(w) && j < CLUSTER_SLOTS && w.owner[j] == v.owner[j]
    requires w.peers == v.peers && w.importing == v.importing
    ensures Takes(w, sender, epoch, j) == Takes(v, sender, epoch, j)
  {
  }

  lemma LostIsOwnedBy(v: View, sender: Id, epoch: nat, slots: set<nat>)
    requires Valid(v)
    ensures Lost(v, sender, epoch, slots) == OwnedBy(v.owner, Taken(v, sender, epoch, slots), CurrentMaster(v))
    ensures |Lost(v, sender, epoch, slots)| == |Claimed(v, slots)|
      <==> Lost(v, sender, epoch, slots) == Claimed(v, slots)
    ensures |Lost(v, sender, epoch, slots)| > 0 <==> Lost(v, sender, epoch, slots) != {}
  {
    var lost, claimed := Lost(v, sender, epoch, slots), Claimed(v, slots);
    assert lost <= claimed;
    if lost != claimed {
      assert lost < claimed;
      assert |claimed - lost| == |claimed| - |lost| && claimed - lost != {};
    }
  }

  /** The masters with slots outside `left`. */
  ghost function Counted(v: View, left: set<Id>): set<Id> {
    set n | n in v.peers && n !in left && v.peers[n].master && SlotsOf(v, n) != {}
  }

  lemma CountedEnds(v: View)
    ensures Counted(v, v.peers.Keys) == {} && |Counted(v, {})| == ClusterSize(v)
  {
    assert Counted(v, {}) == set n | n in v.peers && v.peers[n].master && SlotsOf(v, n) != {};
  }

  lemma CountedNext(v: View, left: set<Id>, n: Id)
    requires n in left && n in v.peers
    ensures |Counted(v, left - {n})| == |Counted(v, left)| + if v.peers[n].master && SlotsOf(v, n) != {} then 1 else 0
  {
    hide SlotsOf;
    assert Counted(v, left - {n}) == Counted(v, left) + if v.peers[n].master && SlotsOf(v, n) != {} then {n} else {};
  }

  lemma SameSiblings(v: View, w: View)
    requires v.me in v.peers && w.me == v.me && w.peers == v.peers
    ensures Siblings(v) == Siblings(w)
  {
  }

  ghost function SentTo(v: View, targets: set<Id>, body: Body): set<Packet>
    requires Valid(v)
  {
    set n | n in targets :: Build(v, n, body)
  }

  lemma SentToNext(v: View, done: set<Id>, n: Id, body: Body)
    requires Valid(v)
    ensures SentTo(v, done + {n}, body) == SentTo(v, done, body) + {Build(v, n, body)}
  {
  }

  lemma BitGoes(owner: seq<Option<Id>>, n: Id, j: nat)
    requires j < |owner| && owner[j] == Some(n)
    ensures |Bits(owner[j := None], n)| == |Bits(owner, n)| - 1
  {
    assert Bits(owner[j := None], n) == Bits(owner, n) - {j};
  }
}
