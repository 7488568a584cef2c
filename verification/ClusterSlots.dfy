/** Slot ownership: what a claim does to the table, and where any sequence of claims leads. */
module ClusterSlots {
  import opened Options
  import opened ClusterView
  import opened ClusterEffects
  import opened ClusterFate
  import ClusterCollision

  /** A PING or PONG of a master other than the receiver. */
  ghost predicate IsClaim(v: View, p: Packet) {
    (p.body.Ping? || p.body.Pong?) && p.slaveof.None? && p.sender in v.peers && p.sender != v.me
  }

  /** The owner of slot `j` once a master that claims `slots` with `epoch` has been heard. */
  function OwnerAfter(v: View, sender: Id, epoch: nat, slots: set<nat>, j: nat): Option<Id>
    requires Valid(v) && j < CLUSTER_SLOTS
  {
    if j in slots && Takes(v, sender, epoch, j) then Some(sender) else v.owner[j]
  }

  lemma UpdateTable(v: View, sender: Id, epoch: nat, slots: set<nat>, env: Env, j: nat)
    requires Valid(v) && j < CLUSTER_SLOTS && sender != v.me
    ensures UpdateSlotsConfigWith(v, sender, epoch, slots, env).owner[j] == OwnerAfter(v, sender, epoch, slots, j)
  {
  }

  /** The `dirty_slots` shortcut skips the update only when it would change nothing. */
  lemma CleanClaimChangesNothing(v: View, p: Packet, env: Env)
    requires Valid(v) && p.sender in v.peers && v.peers[p.sender].master && !Dirty(v, p)
    ensures UpdateSlotsConfigWith(v, p.sender, p.configEpoch, p.slots, env) == v
  {
    forall j | j in p.slots ensures v.owner[j] == Some(p.sender) {
      assert j in SlotsOf(v, p.sender);
    }
    assert Taken(v, p.sender, p.configEpoch, p.slots) == {};
    assert Rebind(v, {}, Some(p.sender)).owner == v.owner;
  }

  lemma HeaderTable(v: View, p: Packet, j: nat)
    requires Valid(v) && p.sender in v.peers && j < CLUSTER_SLOTS
    ensures Valid(TakeHeader(v, p))
    ensures OwnerAfter(TakeHeader(v, p), p.sender, p.configEpoch, p.slots, j)
         == OwnerAfter(v, p.sender, p.configEpoch, p.slots, j)
  {
    HeaderValid(v, p);
  }

  /** Hearing a master gives it exactly the claimed slots that are free or owned with a
      smaller epoch and are not being imported; every other slot stays as it is. */
  lemma ClaimTable(v: View, p: Packet, env: Env, j: nat)
    requires Valid(v) && IsClaim(v, p) && j < CLUSTER_SLOTS && ProcessFate(v, p, env) == Survives
    ensures |Process(v, p, env).view.owner| == CLUSTER_SLOTS
    ensures Process(v, p, env).view.owner[j] == OwnerAfter(v, p.sender, p.configEpoch, p.slots, j)
  {
    ProcessValid(v, p, env);
    HeaderTable(v, p, j);
    ConfigTable(TakeHeader(v, p), p, env, j);
  }

  lemma ConfigTable(v: View, p: Packet, env: Env, j: nat)
    requires Valid(v) && IsClaim(v, p) && j < CLUSTER_SLOTS
    ensures |ProcessConfig(v, p, env).view.owner| == CLUSTER_SLOTS
    ensures ProcessConfig(v, p, env).view.owner[j] == OwnerAfter(v, p.sender, p.configEpoch, p.slots, j)
  {
    ConfigValid(v, p, env);
    var v1 := SwitchRole(v, p);
    SwitchRoleValid(v, p);
    assert v1.owner == v.owner && v1.importing == v.importing;
    RoleEffects(v, p);
    assert OwnerAfter(v1, p.sender, p.configEpoch, p.slots, j) == OwnerAfter(v, p.sender, p.configEpoch, p.slots, j);
    UpdateTable(v1, p.sender, p.configEpoch, p.slots, env, j);
    if !Dirty(v1, p) {
      CleanClaimChangesNothing(v1, p, env);
    }
  }

  // ------------------------------------------------------------------
  // Every rebind raises the epoch of the owner

  /** What hearing a node leaves of the epochs known. */
  lemma ConfigPeers(v: View, p: Packet, env: Env)
    requires Valid(v) && p.sender in v.peers && p.sender != v.me
    ensures
      var w := ProcessConfig(v, p, env).view;
      && w.me == v.me && w.peers.Keys == v.peers.Keys
      && (forall n | n in v.peers && n != v.me :: w.peers[n].configEpoch == v.peers[n].configEpoch)
      && (w.peers[v.me].configEpoch != v.peers[v.me].configEpoch ==> p.configEpoch == v.peers[v.me].configEpoch)
  {
    ConfigValid(v, p, env);
    ClusterCollision.ConfigOwn(v, p, env);
    SwitchRoleValid(v, p);
    RoleEffects(v, p);
    var v1 := SwitchRole(v, p);
    ClaimEffects(v1, p, env);
  }

  /** A node that announces a master loses its own slots and gains none. */
  lemma ReplicaTable(v: View, p: Packet, env: Env, j: nat)
    requires Valid(v) && p.sender in v.peers && p.sender != v.me && p.slaveof.Some? && j < CLUSTER_SLOTS
    ensures |ProcessConfig(v, p, env).view.owner| == CLUSTER_SLOTS
    ensures ProcessConfig(v, p, env).view.owner[j] in {v.owner[j], None}
  {
    ConfigValid(v, p, env);
    ClusterCollision.SenderStaysReplica(v, p, env);
  }

  ghost predicate RaisesEpoch(v: View, w: View, j: nat)
    requires j < |v.owner| && j < |w.owner|
  {
    v.owner[j].Some? && w.owner[j].Some? && v.owner[j] != w.owner[j] ==>
      var a, b := v.owner[j].value, w.owner[j].value;
      a in w.peers && b in w.peers && w.peers[a].configEpoch < w.peers[b].configEpoch
  }

  lemma ConfigRaises(v: View, p: Packet, env: Env, j: nat)
    requires Valid(v) && p.sender in v.peers && p.sender != v.me && j < CLUSTER_SLOTS
    requires (p.body.Ping? || p.body.Pong?) && p.configEpoch <= v.peers[p.sender].configEpoch
    ensures |ProcessConfig(v, p, env).view.owner| == CLUSTER_SLOTS
    ensures RaisesEpoch(v, ProcessConfig(v, p, env).view, j)
  {
    ConfigPeers(v, p, env);
    if p.slaveof.Some? {
      ReplicaTable(v, p, env, j);
    } else {
      ConfigTable(v, p, env, j);
    }
  }

  lemma UpdateRaises(v: View, p: Packet, env: Env, j: nat)
    requires Valid(v) && p.body.Update? && j < CLUSTER_SLOTS && ReportFate(v, p, env) == Survives
    ensures |ProcessUpdate(v, p, env).owner| == CLUSTER_SLOTS
    ensures RaisesEpoch(v, ProcessUpdate(v, p, env), j)
  {
    UpdateValid(v, p, env);
    if IsNews(v, p) {
      var n, v1 := p.body.node, Reported(v, p);
      SlotEffects(v1, n, p.body.epoch, p.body.claim, env);
      if n != v.me {
        UpdateTable(v1, n, p.body.epoch, p.body.claim, env, j);
      }
    }
  }

  /** Whatever packet of another node is survived, a slot goes from one owner to another only if
      the new owner is known with a strictly greater config epoch. */
  lemma RebindRaisesEpoch(v: View, p: Packet, env: Env, j: nat)
    requires Valid(v) && p.sender != v.me && j < CLUSTER_SLOTS && ProcessFate(v, p, env) == Survives
    ensures |Process(v, p, env).view.owner| == CLUSTER_SLOTS
    ensures RaisesEpoch(v, Process(v, p, env).view, j)
  {
    ProcessValid(v, p, env);
    if p.sender in v.peers {
      var v1 := TakeHeader(v, p);
      HeaderValid(v, p);
      match p.body {
        case Ping => ConfigRaises(v1, p, env, j);
        case Pong => ConfigRaises(v1, p, env, j);
        case Update(_, _, _) => UpdateRaises(v1, p, env, j);
        case AuthRequest(_) =>
        case Fail(_) =>
        case AuthAck =>
        case Other =>
      }
    }
  }

  // ------------------------------------------------------------------
  // Convergence

  datatype Heard = Heard(p: Packet, env: Env)

  /** The view after hearing these packets, in this order. */
  ghost function HearAll(v: View, hs: seq<Heard>): (w: View)
    requires Valid(v)
    ensures Valid(w) && w.me == v.me && w.peers.Keys == v.peers.Keys
  {
    if hs == [] then v
    else
      var u, h := HearAll(v, hs[..|hs| - 1]), hs[|hs| - 1];
      ProcessValid(u, h.p, h.env);
      Process(u, h.p, h.env).view
  }

  /** Masters with fixed slot sets and epochs, different masters with different epochs,
      none known with a greater one. */
  ghost predicate FixedClaims(v: View, hs: seq<Heard>) {
    && (forall k | 0 <= k < |hs| :: IsClaim(v, hs[k].p) && v.peers[hs[k].p.sender].configEpoch <= hs[k].p.configEpoch)
    && (forall i, k | 0 <= i < |hs| && 0 <= k < |hs| ::
          if hs[i].p.sender == hs[k].p.sender
          then hs[i].p.configEpoch == hs[k].p.configEpoch && hs[i].p.slots == hs[k].p.slots
          else hs[i].p.configEpoch != hs[k].p.configEpoch)
  }

  /** Nothing is assigned or imported, and a replica knows its master. */
  ghost predicate Unassigned(v: View) {
    && v.importing == {} && (forall j | 0 <= j < |v.owner| :: v.owner[j].None?)
    && v.me in v.peers && CurrentMaster(v).Some?
  }

  /** The receiver survives every packet. */
  ghost predicate AllSurvived(v: View, hs: seq<Heard>)
    requires Valid(v)
  {
    forall k {:trigger hs[k]} | 0 <= k < |hs| :: ProcessFate(HearAll(v, hs[..k]), hs[k].p, hs[k].env) == Survives
  }

  /** A node that is ready stays so, and survives, whatever it hears from other nodes. */
  lemma {:induction false} HearReady(v: View, hs: seq<Heard>)
    requires Ready(v) && forall k | 0 <= k < |hs| :: hs[k].p.sender != v.me
    ensures Ready(HearAll(v, hs)) && AllSurvived(v, hs)
    decreases |hs|
  {
    hide ProcessFate, Process, Valid, CurrentMaster, SlotsOf;
    if hs != [] {
      var n := |hs| - 1;
      HearReady(v, hs[..n]);
      ProcessReady(HearAll(v, hs[..n]), hs[n].p, hs[n].env);
      forall k | 0 <= k < |hs| ensures ProcessFate(HearAll(v, hs[..k]), hs[k].p, hs[k].env) == Survives {
        if k < n {
          assert hs[..n][..k] == hs[..k] && hs[..n][k] == hs[k];
        }
      }
    }
  }

  /** `k` is the claim to slot `j` with the greatest epoch. */
  ghost predicate Strongest(hs: seq<Heard>, j: nat, k: nat) {
    k < |hs| && j in hs[k].p.slots &&
    forall i | 0 <= i < |hs| && j in hs[i].p.slots :: hs[i].p.configEpoch <= hs[k].p.configEpoch
  }

  lemma ClaimPeers(v: View, p: Packet, env: Env)
    requires Valid(v) && IsClaim(v, p)
    ensures
      var w := Process(v, p, env).view;
      && w.me == v.me && w.peers.Keys == v.peers.Keys
      && (forall n | n in v.peers && n != v.me :: w.peers[n].configEpoch ==
            if n == p.sender then Max(v.peers[n].configEpoch, p.configEpoch) else v.peers[n].configEpoch)
  {
    HeaderValid(v, p);
    var v1 := TakeHeader(v, p);
    ConfigPeers(v1, p, env);
    assert Process(v, p, env).view == ProcessConfig(v1, p, env).view;
  }

  lemma RoleImports(v: View, p: Packet)
    requires Valid(v) && p.sender in v.peers
    ensures SwitchRole(v, p).importing <= v.importing
  {
    hide Valid;
  }

  lemma TakeImports(v: View, p: Packet, env: Env)
    requires Valid(v) && p.sender in v.peers
    ensures TakeClaims(v, p, env).importing <= v.importing
  {
    hide Valid, Dirty, Dethroned;
  }

  lemma ConfigImports(v: View, p: Packet, env: Env)
    requires Valid(v) && p.sender in v.peers
    ensures ProcessConfig(v, p, env).view.importing <= v.importing
  {
    hide Valid, Correction, SwitchRole, TakeClaims, Dirty, Collides;
    SwitchRoleValid(v, p);
    RoleImports(v, p);
    var v1 := SwitchRole(v, p);
    TakeImports(v1, p, env);
    TakeClaimsValid(v1, p, env);
  }

  lemma ClaimImports(v: View, p: Packet, env: Env)
    requires Valid(v) && IsClaim(v, p)
    ensures Process(v, p, env).view.importing <= v.importing
  {
    HeaderValid(v, p);
    ConfigImports(TakeHeader(v, p), p, env);
    assert Process(v, p, env).view == ProcessConfig(TakeHeader(v, p), p, env).view;
  }

  /** The epochs of the masters heard are known, the others are as they were. */
  ghost predicate EpochsHeard(v: View, hs: seq<Heard>, w: View)
    requires w.peers.Keys == v.peers.Keys
  {
    && (forall k | 0 <= k < |hs| ::
          hs[k].p.sender in w.peers && w.peers[hs[k].p.sender].configEpoch == hs[k].p.configEpoch)
    && (forall n | n in v.peers && n != v.me ::
          w.peers[n].configEpoch == v.peers[n].configEpoch || exists k | 0 <= k < |hs| :: hs[k].p.sender == n)
  }

  /** Slot `j` is with its strongest claimant, or nobody claimed it. */
  ghost predicate OwnerSettled(hs: seq<Heard>, owner: Option<Id>, j: nat) {
    if owner.None? then forall k | 0 <= k < |hs| :: j !in hs[k].p.slots
    else exists k | 0 <= k < |hs| :: Strongest(hs, j, k) && hs[k].p.sender == owner.value
  }

  lemma HearEpochs(v: View, hs: seq<Heard>, u: View, h: Heard, w: View)
    requires FixedClaims(v, hs + [h]) && u.peers.Keys == v.peers.Keys == w.peers.Keys && EpochsHeard(v, hs, u)
    requires forall n | n in u.peers && n != v.me ::
      w.peers[n].configEpoch == (if n == h.p.sender then Max(u.peers[n].configEpoch, h.p.configEpoch)
                                 else u.peers[n].configEpoch)
    ensures EpochsHeard(v, hs + [h], w)
  {
    var hs' := hs + [h];
    assert hs'[|hs|] == h;
    assert IsClaim(v, h.p) && v.peers[h.p.sender].configEpoch <= h.p.configEpoch;
    assert u.peers[h.p.sender].configEpoch <= h.p.configEpoch by {
      if k :| 0 <= k < |hs| && hs[k].p.sender == h.p.sender {
        assert hs'[k] == hs[k];
      }
    }
    forall k | 0 <= k < |hs'|
      ensures hs'[k].p.sender in w.peers && w.peers[hs'[k].p.sender].configEpoch == hs'[k].p.configEpoch
    {
      assert IsClaim(v, hs'[k].p);
      if k < |hs| {
        assert hs'[k] == hs[k];
      }
    }
    forall n | n in v.peers && n != v.me
      ensures w.peers[n].configEpoch == v.peers[n].configEpoch || exists k | 0 <= k < |hs'| :: hs'[k].p.sender == n
    {
      if n == h.p.sender {
        assert hs'[|hs|].p.sender == n;
      } else if exists k | 0 <= k < |hs| :: hs[k].p.sender == n {
        var k :| 0 <= k < |hs| && hs[k].p.sender == n;
        assert hs'[k].p.sender == n;
      }
    }
  }

  /** One more claim leaves the slot with the strongest claimant. */
  lemma HearOwner(v: View, hs: seq<Heard>, u: View, h: Heard, j: nat)
    requires Valid(u) && FixedClaims(v, hs + [h]) && u.peers.Keys == v.peers.Keys && EpochsHeard(v, hs, u)
    requires j < CLUSTER_SLOTS && u.importing == {} && OwnerSettled(hs, u.owner[j], j)
    ensures OwnerSettled(hs + [h], OwnerAfter(u, h.p.sender, h.p.configEpoch, h.p.slots, j), j)
  {
    var hs' := hs + [h];
    assert hs'[|hs|] == h;
    assert forall k | 0 <= k < |hs| :: hs'[k] == hs[k];
    if u.owner[j].Some? {
      var k :| 0 <= k < |hs| && Strongest(hs, j, k) && hs[k].p.sender == u.owner[j].value;
      assert u.peers[hs[k].p.sender].configEpoch == hs[k].p.configEpoch;
      if j in h.p.slots && Takes(u, h.p.sender, h.p.configEpoch, j) {
        assert Strongest(hs', j, |hs|);
      } else {
        assert Strongest(hs', j, k);
      }
    } else if j in h.p.slots {
      assert Strongest(hs', j, |hs|);
    }
  }

  lemma FixedPrefix(v: View, hs: seq<Heard>, k: nat)
    requires FixedClaims(v, hs) && k <= |hs|
    ensures FixedClaims(v, hs[..k])
  {
  }

  lemma UnassignedReady(v: View)
    requires Valid(v) && Unassigned(v)
    ensures Ready(v)
  {
  }

  lemma {:induction false} HearSettles(v: View, hs: seq<Heard>, j: nat)
    requires Valid(v) && Unassigned(v) && FixedClaims(v, hs) && j < CLUSTER_SLOTS
    ensures HearAll(v, hs).importing == {} && EpochsHeard(v, hs, HearAll(v, hs))
    ensures OwnerSettled(hs, HearAll(v, hs).owner[j], j)
    decreases |hs|
  {
    if hs != [] {
      var n := |hs| - 1;
      var u, h := HearAll(v, hs[..n]), hs[n];
      var w := HearAll(v, hs);
      assert hs == hs[..n] + [h];
      FixedPrefix(v, hs, n);
      HearSettles(v, hs[..n], j);
      assert IsClaim(u, h.p);
      ClaimImports(u, h.p, h.env);
      ClaimPeers(u, h.p, h.env);
      HearEpochs(v, hs[..n], u, h, w);
      UnassignedReady(v);
      HearReady(v, hs);
      ClaimTable(u, h.p, h.env, j);
      HearOwner(v, hs[..n], u, h, j);
    }
  }

  /** From an unassigned table with no slot importing, on a master or a replica that knows its master, claims of
      masters with fixed slots and distinct epochs, heard in any order and any number of times, leave every claimed
      slot with the claimant that has the greatest epoch and every other slot unassigned. */
  lemma ClaimsConverge(v: View, hs: seq<Heard>, j: nat)
    requires Valid(v) && Unassigned(v) && FixedClaims(v, hs) && j < CLUSTER_SLOTS
    ensures forall k: nat | Strongest(hs, j, k) :: HearAll(v, hs).owner[j] == Some(hs[k].p.sender)
    ensures (forall k | 0 <= k < |hs| :: j !in hs[k].p.slots) ==> HearAll(v, hs).owner[j].None?
    ensures AllSurvived(v, hs)
  {
    HearSettles(v, hs, j);
    UnassignedReady(v);
    HearReady(v, hs);
    var owner := HearAll(v, hs).owner[j];
    forall k: nat | Strongest(hs, j, k) ensures owner == Some(hs[k].p.sender) {
      assert owner.Some?;
      var i :| 0 <= i < |hs| && Strongest(hs, j, i) && hs[i].p.sender == owner.value;
      assert hs[i].p.configEpoch == hs[k].p.configEpoch;
    }
  }

  ghost function PacketsOf(hs: seq<Heard>): set<Packet> {
    set k | 0 <= k < |hs| :: hs[k].p
  }

  lemma StrongestSame(hs: seq<Heard>, gs: seq<Heard>, j: nat, k: nat) returns (i: nat)
    requires PacketsOf(hs) == PacketsOf(gs) && Strongest(hs, j, k)
    ensures Strongest(gs, j, i) && gs[i].p == hs[k].p
  {
    assert hs[k].p in PacketsOf(gs);
    i :| 0 <= i < |gs| && gs[i].p == hs[k].p;
    forall l | 0 <= l < |gs| && j in gs[l].p.slots ensures gs[l].p.configEpoch <= gs[i].p.configEpoch {
      assert gs[l].p in PacketsOf(hs);
      var m :| 0 <= m < |hs| && hs[m].p == gs[l].p;
    }
  }

  lemma NobodyClaims(hs: seq<Heard>, gs: seq<Heard>, j: nat)
    requires PacketsOf(hs) == PacketsOf(gs) && forall k | 0 <= k < |hs| :: j !in hs[k].p.slots
    ensures forall k | 0 <= k < |gs| :: j !in gs[k].p.slots
  {
    forall k | 0 <= k < |gs| ensures j !in gs[k].p.slots {
      assert gs[k].p in PacketsOf(hs);
      var m :| 0 <= m < |hs| && hs[m].p == gs[k].p;
    }
  }

  lemma SameOwner(v: View, hs: seq<Heard>, gs: seq<Heard>, j: nat)
    requires Valid(v) && Unassigned(v) && FixedClaims(v, hs) && FixedClaims(v, gs) && j < CLUSTER_SLOTS
    requires PacketsOf(hs) == PacketsOf(gs)
    ensures HearAll(v, hs).owner[j] == HearAll(v, gs).owner[j]
  {
    HearSettles(v, hs, j);
    ClaimsConverge(v, gs, j);
    if HearAll(v, hs).owner[j].None? {
      NobodyClaims(hs, gs, j);
    } else {
      var k :| 0 <= k < |hs| && Strongest(hs, j, k) && hs[k].p.sender == HearAll(v, hs).owner[j].value;
      var i := StrongestSame(hs, gs, j, k);
    }
  }

  /** Hence the order and the repetitions do not matter. */
  lemma OrderIsIrrelevant(v: View, hs: seq<Heard>, gs: seq<Heard>)
    requires Valid(v) && Unassigned(v) && FixedClaims(v, hs) && FixedClaims(v, gs) && PacketsOf(hs) == PacketsOf(gs)
    ensures HearAll(v, hs).owner == HearAll(v, gs).owner && AllSurvived(v, hs) && AllSurvived(v, gs)
  {
    UnassignedReady(v);
    HearReady(v, hs);
    HearReady(v, gs);
    forall j: nat | j < CLUSTER_SLOTS ensures HearAll(v, hs).owner[j] == HearAll(v, gs).owner[j] {
      SameOwner(v, hs, gs, j);
    }
  }
}
