/** What the announcements of slots do on the other side: who takes which slot, who follows whom, and how a node with
    an outdated table is put right. */
module ClusterClaims {
  import opened Options
  import opened ClusterView
  import opened ClusterEffects
  import opened ClusterFate
  import opened ClusterSlots
  import opened ClusterFailover

  /** Slot `j` goes to node `n`, which claims `slots` with `epoch`. */
  ghost predicate Goes(v: View, n: Id, epoch: nat, slots: set<nat>, j: nat)
    requires Valid(v) && j < CLUSTER_SLOTS
  {
    && j in slots && j !in v.importing && v.owner[j] != Some(n)
    && (v.owner[j].Some? ==> v.peers[v.owner[j].value].configEpoch < epoch)
  }

  /** The table after the claim. */
  ghost predicate GoesTo(v: View, w: View, n: Id, epoch: nat, slots: set<nat>)
    requires Valid(v)
  {
    |w.owner| == CLUSTER_SLOTS &&
    forall j | 0 <= j < CLUSTER_SLOTS :: w.owner[j] == if Goes(v, n, epoch, slots, j) then Some(n) else v.owner[j]
  }

  /** The claim takes the last slots of this node, or of the master it replicates. If replicas may not migrate, the
      claim must be for these slots and no others. */
  ghost predicate LosesAll(v: View, n: Id, epoch: nat, slots: set<nat>, env: Env)
    requires Valid(v)
  {
    var m := if v.peers[v.me].master then Some(v.me) else v.peers[v.me].slaveof;
    && m.Some? && !env.noRedirection
    && (exists j :: 0 <= j < CLUSTER_SLOTS && v.owner[j] == m)
    && (forall j | 0 <= j < CLUSTER_SLOTS && v.owner[j] == m :: Goes(v, n, epoch, slots, j))
    && (env.allowReplicaMigration || forall j | 0 <= j < CLUSTER_SLOTS && j in slots :: v.owner[j] == m)
  }

  /** The role of this node after the claim: it follows the claimant exactly if it lost all; then a master stops
      importing slots and a manual failover is given up. */
  ghost predicate Follows(v: View, w: View, n: Id, epoch: nat, slots: set<nat>, env: Env)
    requires Valid(v)
  {
    w.me == v.me && v.me in w.peers &&
    if LosesAll(v, n, epoch, slots, env)
    then
      && !w.peers[v.me].master && w.peers[v.me].slaveof == Some(n)
      && w.importing == (if v.peers[v.me].master then {} else v.importing) && !w.mfEnd && !w.mfCanStart
    else
      && w.peers[v.me].master == v.peers[v.me].master && w.peers[v.me].slaveof == v.peers[v.me].slaveof
      && w.importing == v.importing && w.mfEnd == v.mfEnd && w.mfCanStart == v.mfCanStart
  }

  lemma LosesAllIsDethroned(v: View, n: Id, epoch: nat, slots: set<nat>, env: Env)
    requires Valid(v) && n != v.me
    ensures Dethroned(v, n, epoch, slots, env) <==> LosesAll(v, n, epoch, slots, env)
  {
    if CurrentMaster(v).Some? {
      var m := CurrentMaster(v).value;
      LeftOf(v, n, epoch, slots, m);
      LostOf(v, n, epoch, slots, m);
      OwnsSlot(v, m);
      TakenIsGoes(v, n, epoch, slots);
      AllGo(v, n, epoch, slots, m);
      if SlotsOf(v, m) <= Taken(v, n, epoch, slots) {
        ClaimedAre(v, n, epoch, slots, m);
      }
      Within(SlotsOf(v, m), Taken(v, n, epoch, slots));
      hide Goes, SlotsOf, Taken, Lost, Moved, Claimed, Valid;
    }
  }

  lemma TakenIsGoes(v: View, n: Id, epoch: nat, slots: set<nat>)
    requires Valid(v)
    ensures forall j | 0 <= j < CLUSTER_SLOTS :: j in Taken(v, n, epoch, slots) <==> Goes(v, n, epoch, slots, j)
  {
  }

  lemma AllGo(v: View, n: Id, epoch: nat, slots: set<nat>, m: Id)
    requires Valid(v)
    ensures SlotsOf(v, m) <= Taken(v, n, epoch, slots) <==>
      forall j | 0 <= j < CLUSTER_SLOTS && v.owner[j] == Some(m) :: Goes(v, n, epoch, slots, j)
  {
    TakenIsGoes(v, n, epoch, slots);
    hide Goes, Taken;
    assert forall j | 0 <= j < CLUSTER_SLOTS :: v.owner[j] == Some(m) <==> j in SlotsOf(v, m);
  }

  /** If every slot of `m` goes, then nothing else is lost exactly if nothing else is claimed. */
  lemma ClaimedAre(v: View, n: Id, epoch: nat, slots: set<nat>, m: Id)
    requires Valid(v) && SlotsOf(v, m) <= Taken(v, n, epoch, slots)
    ensures SlotsOf(v, m) * Taken(v, n, epoch, slots) == Claimed(v, slots) <==>
      forall j | 0 <= j < CLUSTER_SLOTS && j in slots :: v.owner[j] == Some(m)
  {
    var own, taken, claimed := SlotsOf(v, m), Taken(v, n, epoch, slots), Claimed(v, slots);
    assert own * taken == own;
    assert forall j | 0 <= j < CLUSTER_SLOTS :: v.owner[j] == Some(m) <==> j in own;
    assert forall j :: j in claimed <==> 0 <= j < CLUSTER_SLOTS && j in slots;
    assert own <= claimed;
    if forall j | 0 <= j < CLUSTER_SLOTS && j in slots :: v.owner[j] == Some(m) {
      assert claimed <= own;
    }
  }

  lemma UpdateMoves(v: View, n: Id, epoch: nat, slots: set<nat>, env: Env)
    requires Valid(v) && n in v.peers && n != v.me
    ensures
      var w := UpdateSlotsConfigWith(v, n, epoch, slots, env);
      GoesTo(v, w, n, epoch, slots) && Follows(v, w, n, epoch, slots, env)
  {
    LosesAllIsDethroned(v, n, epoch, slots, env);
    TakenIsGoes(v, n, epoch, slots);
    hide LosesAll, Dethroned, Goes, Taken;
  }

  /** What a claim finds is the same in two views with the same table, imports, role and epochs of other nodes. */
  ghost predicate SameGround(u: View, v: View, n: Id)
    requires Valid(u) && Valid(v)
  {
    && u.me == v.me && u.owner == v.owner && u.importing == v.importing && u.peers.Keys == v.peers.Keys
    && u.mfEnd == v.mfEnd && u.mfCanStart == v.mfCanStart
    && u.peers[v.me].master == v.peers[v.me].master && u.peers[v.me].slaveof == v.peers[v.me].slaveof
    && forall m | m in v.peers && m != n :: u.peers[m].configEpoch == v.peers[m].configEpoch
  }

  lemma SameGoes(u: View, v: View, n: Id, epoch: nat, slots: set<nat>)
    requires Valid(u) && Valid(v) && SameGround(u, v, n)
    ensures forall j | 0 <= j < CLUSTER_SLOTS :: Goes(u, n, epoch, slots, j) <==> Goes(v, n, epoch, slots, j)
  {
  }

  lemma SameLoss(u: View, v: View, n: Id, epoch: nat, slots: set<nat>, env: Env)
    requires Valid(u) && Valid(v) && SameGround(u, v, n)
    ensures LosesAll(u, n, epoch, slots, env) <==> LosesAll(v, n, epoch, slots, env)
  {
    SameGoes(u, v, n, epoch, slots);
    hide Goes, Valid;
  }

  lemma SameOutcome(u: View, v: View, w: View, n: Id, epoch: nat, slots: set<nat>, env: Env)
    requires Valid(u) && Valid(v) && SameGround(u, v, n)
    requires GoesTo(u, w, n, epoch, slots) && Follows(u, w, n, epoch, slots, env)
    ensures GoesTo(v, w, n, epoch, slots) && Follows(v, w, n, epoch, slots, env)
  {
    SameGoes(u, v, n, epoch, slots);
    SameLoss(u, v, n, epoch, slots, env);
    hide Goes, LosesAll, Valid;
  }

  /** A claim that is already met moves nothing. */
  lemma CleanMovesNothing(v: View, p: Packet, env: Env)
    requires Valid(v) && p.sender in v.peers && p.sender != v.me && v.peers[p.sender].master && !Dirty(v, p)
    ensures GoesTo(v, v, p.sender, p.configEpoch, p.slots) && Follows(v, v, p.sender, p.configEpoch, p.slots, env)
  {
    CleanClaimChangesNothing(v, p, env);
    UpdateMoves(v, p.sender, p.configEpoch, p.slots, env);
  }

  lemma TakeMoves(v: View, p: Packet, env: Env)
    requires Valid(v) && p.sender in v.peers && p.sender != v.me && v.peers[p.sender].master
    ensures
      var w := TakeClaims(v, p, env);
      && GoesTo(v, w, p.sender, p.configEpoch, p.slots) && Follows(v, w, p.sender, p.configEpoch, p.slots, env)
      && p.sender in w.peers && w.peers[p.sender] == v.peers[p.sender]
  {
    UpdateMoves(v, p.sender, p.configEpoch, p.slots, env);
    if !Dirty(v, p) {
      CleanMovesNothing(v, p, env);
    }
    hide GoesTo, Follows, Dirty, Dethroned;
  }

  /** Hearing a master: it takes exactly the claimed slots that are free or known with a smaller epoch and are not
      being imported, it is known as a master, and this node follows it exactly if it lost the last slot. */
  lemma ClaimIsHeard(v: View, p: Packet, env: Env)
    requires Valid(v) && IsClaim(v, p) && ProcessFate(v, p, env) == Survives
    ensures
      var w := Process(v, p, env).view;
      && GoesTo(v, w, p.sender, p.configEpoch, p.slots) && Follows(v, w, p.sender, p.configEpoch, p.slots, env)
      && p.sender in w.peers && w.peers[p.sender].master
      && (v.peers[p.sender].master || w.peers[p.sender].slaveof.None?)
  {
    HeaderValid(v, p);
    var v1 := TakeHeader(v, p);
    SwitchRoleValid(v1, p);
    var v2 := SwitchRole(v1, p);
    assert SameGround(v2, v, p.sender) && v2.peers[p.sender].master;
    assert v.peers[p.sender].master || v2.peers[p.sender].slaveof.None?;
    TakeMoves(v2, p, env);
    TakeClaimsValid(v2, p, env);
    var v3 := TakeClaims(v2, p, env);
    SameOutcome(v2, v, v3, p.sender, p.configEpoch, p.slots, env);
    hide TakeHeader, SwitchRole, TakeClaims, Dirty, Correction, ProcessFate, Collides, LosesAll, Goes, SameGround,
         Valid;
    assert Process(v, p, env).view == ProcessConfig(v1, p, env).view;
    BumpMovesNothing(v3);
  }

  lemma BumpMovesNothing(v: View)
    requires v.me in v.peers
    ensures
      var w := BumpOwnEpoch(v);
      && w.me == v.me && w.owner == v.owner && w.importing == v.importing && w.peers.Keys == v.peers.Keys
      && w.mfEnd == v.mfEnd && w.mfCanStart == v.mfCanStart
      && forall n | n in v.peers :: w.peers[n].master == v.peers[n].master && w.peers[n].slaveof == v.peers[n].slaveof
  {
  }

  /** Hearing a replica: a node that was a master loses all its slots, everything else stays, and the node is known
      as a replica of the announced master, if that one is known. */
  lemma ReplicaIsHeard(v: View, p: Packet, env: Env)
    requires Valid(v) && p.sender in v.peers && p.sender != v.me && p.slaveof.Some? && (p.body.Ping? || p.body.Pong?)
    ensures
      var w := Process(v, p, env).view;
      && |w.owner| == CLUSTER_SLOTS && p.sender in w.peers && !w.peers[p.sender].master
      && (forall j | 0 <= j < CLUSTER_SLOTS ::
            w.owner[j] == if v.owner[j] == Some(p.sender) && v.peers[p.sender].master then None else v.owner[j])
      && w.peers[p.sender].slaveof == (if p.slaveof.value in v.peers then p.slaveof else v.peers[p.sender].slaveof)
      && v.me in w.peers && w.peers[v.me].master == v.peers[v.me].master
      && w.peers[v.me].slaveof == v.peers[v.me].slaveof
  {
    HeaderValid(v, p);
    var v1 := TakeHeader(v, p);
    SwitchRoleValid(v1, p);
    var v2 := SwitchRole(v1, p);
    RoleOfReplica(v1, p);
    assert TakeClaims(v2, p, env) == v2;
    assert v1.owner == v.owner && v1.me == v.me;
    assert forall n | n in v.peers ::
      v1.peers[n].master == v.peers[n].master && v1.peers[n].slaveof == v.peers[n].slaveof;
    hide SwitchRole, TakeHeader, TakeClaims, Correction, Collides, Dirty, Valid;
    assert Process(v, p, env).view == ProcessConfig(v1, p, env).view;
    BumpMovesNothing(v2);
  }

  lemma RoleOfReplica(v: View, p: Packet)
    requires Valid(v) && p.sender in v.peers && p.sender != v.me && p.slaveof.Some?
    ensures
      var w := SwitchRole(v, p);
      && w.me == v.me && |w.owner| == CLUSTER_SLOTS && w.peers.Keys == v.peers.Keys && !w.peers[p.sender].master
      && (forall j | 0 <= j < CLUSTER_SLOTS ::
            w.owner[j] == if v.owner[j] == Some(p.sender) && v.peers[p.sender].master then None else v.owner[j])
      && w.peers[p.sender].slaveof == (if p.slaveof.value in v.peers then p.slaveof else v.peers[p.sender].slaveof)
      && w.peers[v.me] == v.peers[v.me]
  {
    assert forall j | 0 <= j < CLUSTER_SLOTS :: j in SlotsOf(v, p.sender) <==> v.owner[j] == Some(p.sender);
    hide SlotsOf;
  }

  // ------------------------------------------------------------------
  // UPDATE

  /** The epoch by which a node is known once the header of `p` has been taken over. */
  function KnownEpoch(v: View, p: Packet, n: Id): nat
    requires n in v.peers
  {
    if n == p.sender then Max(v.peers[n].configEpoch, p.configEpoch) else v.peers[n].configEpoch
  }

  /** An UPDATE is news if it reports a known node with a greater epoch. */
  ghost predicate News(v: View, p: Packet)
    requires p.body.Update?
  {
    p.body.node in v.peers && KnownEpoch(v, p, p.body.node) < p.body.epoch
  }

  lemma ReportedGround(v: View, p: Packet)
    requires Valid(v) && p.body.Update? && IsNews(v, p) && p.body.node != v.me
    ensures
      var w, n := Reported(v, p), p.body.node;
      && Valid(w) && SameGround(w, v, n) && n in w.peers && w.peers[n].master && w.peers[n].configEpoch == p.body.epoch
  {
  }

  lemma UpdateKeepsPeer(v: View, n: Id, epoch: nat, slots: set<nat>, env: Env)
    requires Valid(v) && n in v.peers && n != v.me
    ensures
      var w := UpdateSlotsConfigWith(v, n, epoch, slots, env);
      n in w.peers && w.peers[n] == v.peers[n]
  {
    hide Dethroned;
  }

  /** An UPDATE that is news about another node has the effect of a claim of that node, and one about this node makes it
      a master with that epoch; one that is not news changes neither slots nor roles. */
  lemma UpdateIsHeard(v: View, p: Packet, env: Env)
    requires Valid(v) && p.sender in v.peers && p.body.Update? && ProcessFate(v, p, env) == Survives
    ensures
      var v1, w, n := TakeHeader(v, p), Process(v, p, env).view, p.body.node;
      Valid(v1) &&
      if !News(v, p) then w == v1
      else
        && n in w.peers && w.peers[n].master && w.peers[n].configEpoch == p.body.epoch
        && if n == v.me then w.owner == v.owner
           else GoesTo(v1, w, n, p.body.epoch, p.body.claim) && Follows(v1, w, n, p.body.epoch, p.body.claim, env)
  {
    HeaderValid(v, p);
    var v1 := TakeHeader(v, p);
    assert IsNews(v1, p) <==> News(v, p);
    if News(v, p) && p.body.node == v.me {
      hide GoesTo, Follows, Dethroned, ProcessFate;
    } else if News(v, p) {
      var n, v2 := p.body.node, Reported(v1, p);
      ReportedGround(v1, p);
      hide Reported, Valid, TakeHeader;
      UpdateMoves(v2, n, p.body.epoch, p.body.claim, env);
      var w := UpdateSlotsConfigWith(v2, n, p.body.epoch, p.body.claim, env);
      SameOutcome(v2, v1, w, n, p.body.epoch, p.body.claim, env);
      UpdateKeepsPeer(v2, n, p.body.epoch, p.body.claim, env);
      hide GoesTo, Follows, SameGround, UpdateSlotsConfigWith, ProcessFate;
    }
  }

  /** A master that reports itself by UPDATE reports nothing new: the header of the packet has said it already. */
  lemma SelfUpdateIsIgnored(v: View, p: Packet, env: Env)
    requires Valid(v) && p.sender in v.peers && p.body.Update? && p.body.node == p.sender
    requires p.body.epoch == p.configEpoch
    ensures Process(v, p, env) == Outcome(TakeHeader(v, p), {})
  {
    HeaderValid(v, p);
    assert !IsNews(TakeHeader(v, p), p);
  }

  // ------------------------------------------------------------------
  // Corrections

  /** Slot `j` is claimed by the sender, and stays with a node that is known with a greater epoch. */
  ghost predicate Stale(v: View, w: View, p: Packet, j: nat)
    requires Valid(v) && |w.owner| == CLUSTER_SLOTS && j < CLUSTER_SLOTS
  {
    && j in p.slots && w.owner[j].Some? && w.owner[j] != Some(p.sender) && w.owner[j].value in v.peers
    && v.peers[w.owner[j].value].configEpoch > p.configEpoch
  }

  /** The UPDATE about the owner of slot `j`: its epoch and its slots in the table of `w`. */
  ghost predicate Corrects(v: View, w: View, p: Packet, j: nat, q: Packet)
    requires Valid(v) && |w.owner| == CLUSTER_SLOTS && j < CLUSTER_SLOTS
  {
    && Stale(v, w, p, j) && q.dst == p.sender && q.sender == v.me && q.body.Update?
    && q.body.node == w.owner[j].value && q.body.epoch == v.peers[q.body.node].configEpoch
    && forall k: nat :: k in q.body.claim <==> k < CLUSTER_SLOTS && w.owner[k] == Some(q.body.node)
  }

  /** The first slot from `j` on that is stale. */
  ghost predicate FirstStale(v: View, w: View, p: Packet, j: nat, k: nat)
    requires Valid(v) && |w.owner| == CLUSTER_SLOTS && j <= k < CLUSTER_SLOTS
  {
    Stale(v, w, p, k) && forall i | j <= i < k :: !Stale(v, w, p, i)
  }

  lemma {:induction false} CorrectionAt(v: View, p: Packet, j: nat, k: nat)
    requires Valid(v) && j <= k < CLUSTER_SLOTS && FirstStale(v, v, p, j, k)
    ensures
      var n := v.owner[k].value;
      n in v.peers && Correction(v, p, j) == {Build(v, p.sender, Update(n, v.peers[n].configEpoch, SlotsOf(v, n)))}
    decreases k - j
  {
    hide Build, SlotsOf;
    if j < k {
      CorrectionAt(v, p, j + 1, k);
      assert !Stale(v, v, p, j);
    }
  }

  lemma {:induction false} NoCorrection(v: View, p: Packet, j: nat)
    requires Valid(v) && j <= CLUSTER_SLOTS && forall k | j <= k < CLUSTER_SLOTS :: !Stale(v, v, p, k)
    ensures Correction(v, p, j) == {}
    decreases CLUSTER_SLOTS - j
  {
    if j < CLUSTER_SLOTS {
      NoCorrection(v, p, j + 1);
      assert !Stale(v, v, p, j);
    }
  }

  ghost function Updates(sent: set<Packet>): set<Packet> {
    set q | q in sent && q.body.Update?
  }

  /** The view that decides on the correction: header, role and claims of `p` taken over. */
  function Settled(v: View, p: Packet, env: Env): View
    requires Valid(v) && p.sender in v.peers
  {
    HeaderValid(v, p);
    SwitchRoleValid(TakeHeader(v, p), p);
    TakeClaims(SwitchRole(TakeHeader(v, p), p), p, env)
  }

  /** A PING or PONG of another node. */
  ghost predicate IsNotice(v: View, p: Packet) {
    (p.body.Ping? || p.body.Pong?) && p.sender in v.peers && p.sender != v.me
  }

  lemma SettledView(v: View, p: Packet, env: Env)
    requires Valid(v) && IsNotice(v, p)
    ensures
      var u, w := Settled(v, p, env), Process(v, p, env).view;
      && Valid(u) && u.me == v.me && u.owner == w.owner && |w.owner| == CLUSTER_SLOTS && u.peers.Keys == v.peers.Keys
      && forall n | n in v.peers && n != p.sender :: u.peers[n].configEpoch == v.peers[n].configEpoch
  {
    HeaderValid(v, p);
    var v1 := TakeHeader(v, p);
    SwitchRoleValid(v1, p);
    RoleEffects(v1, p);
    var v2 := SwitchRole(v1, p);
    TakeClaimsValid(v2, p, env);
    ClaimEffects(v2, p, env);
    hide SwitchRole, TakeClaims, Dirty, Correction, ProcessFate, Collides;
    BumpMovesNothing(TakeClaims(v2, p, env));
  }

  lemma SettledUpdates(v: View, p: Packet, env: Env)
    requires Valid(v) && IsNotice(v, p)
    ensures
      var v1 := TakeHeader(v, p);
      Valid(v1) && Valid(SwitchRole(v1, p)) && Valid(Settled(v, p, env)) &&
      Updates(Process(v, p, env).sent)
      == Updates(if Dirty(SwitchRole(v1, p), p) then Correction(Settled(v, p, env), p, 0) else {})
  {
    HeaderValid(v, p);
    var v1 := TakeHeader(v, p);
    SwitchRoleValid(v1, p);
    TakeClaimsValid(SwitchRole(v1, p), p, env);
    hide TakeHeader, SwitchRole, TakeClaims, Dirty, Correction, Collides;
    assert !Build(v1, p.sender, Pong).body.Update?;
    hide Build;
  }

  lemma StaleIsDirty(v: View, p: Packet, env: Env, j: nat)
    requires Valid(v) && IsClaim(v, p) && j < CLUSTER_SLOTS && ProcessFate(v, p, env) == Survives
    requires |Process(v, p, env).view.owner| == CLUSTER_SLOTS && Stale(v, Process(v, p, env).view, p, j)
    ensures p.sender in TakeHeader(v, p).peers && Dirty(SwitchRole(TakeHeader(v, p), p), p)
  {
    ClaimIsHeard(v, p, env);
    hide Process, ProcessFate, LosesAll;
    assert v.owner[j] != Some(p.sender);
    assert j !in SlotsOf(SwitchRole(TakeHeader(v, p), p), p.sender);
  }

  /** A master that claims a slot which is known to belong to a node with a greater epoch is sent exactly one UPDATE,
      about the owner of the first such slot, with its epoch and all its slots. No other claim is answered by one. */
  lemma OutdatedIsCorrected(v: View, p: Packet, env: Env)
    requires Valid(v) && IsClaim(v, p) && ProcessFate(v, p, env) == Survives
    ensures
      var r := Process(v, p, env);
      && |r.view.owner| == CLUSTER_SLOTS
      && (forall k | 0 <= k < CLUSTER_SLOTS && FirstStale(v, r.view, p, 0, k) ::
            exists q :: Updates(r.sent) == {q} && Corrects(v, r.view, p, k, q))
      && ((forall k | 0 <= k < CLUSTER_SLOTS :: !Stale(v, r.view, p, k)) ==> Updates(r.sent) == {})
  {
    SettledView(v, p, env);
    SettledUpdates(v, p, env);
    var r := Process(v, p, env);
    forall k | 0 <= k < CLUSTER_SLOTS && FirstStale(v, r.view, p, 0, k)
      ensures exists q :: Updates(r.sent) == {q} && Corrects(v, r.view, p, k, q)
    {
      StaleIsDirty(v, p, env, k);
      CorrectionSent(v, p, env, k);
    }
    hide Process, ProcessFate, Settled, Correction, Dirty;
    if forall k | 0 <= k < CLUSTER_SLOTS :: !Stale(v, r.view, p, k) {
      NothingSent(v, p, env);
    }
  }

  lemma SameStale(v: View, p: Packet, env: Env)
    requires Valid(v) && IsNotice(v, p)
    ensures
      var u, w := Settled(v, p, env), Process(v, p, env).view;
      && Valid(u) && |w.owner| == CLUSTER_SLOTS
      && forall k | 0 <= k < CLUSTER_SLOTS :: Stale(u, u, p, k) <==> Stale(v, w, p, k)
  {
    SettledView(v, p, env);
    hide Process, Settled;
  }

  /** A difference between table and claim, and a stale slot: the first one is corrected. */
  lemma CorrectionSent(v: View, p: Packet, env: Env, k: nat)
    requires Valid(v) && IsNotice(v, p) && k < CLUSTER_SLOTS && |Process(v, p, env).view.owner| == CLUSTER_SLOTS
    requires FirstStale(v, Process(v, p, env).view, p, 0, k)
    requires p.sender in TakeHeader(v, p).peers && Dirty(SwitchRole(TakeHeader(v, p), p), p)
    ensures
      var r := Process(v, p, env);
      exists q :: Updates(r.sent) == {q} && Corrects(v, r.view, p, k, q)
  {
    SettledView(v, p, env);
    SettledUpdates(v, p, env);
    SameStale(v, p, env);
    var u, r := Settled(v, p, env), Process(v, p, env);
    hide Process, Settled, Dirty, SwitchRole, TakeHeader;
    CorrectionAt(u, p, 0, k);
    hide Correction;
    var n := u.owner[k].value;
    var q := Build(u, p.sender, Update(n, u.peers[n].configEpoch, SlotsOf(u, n)));
    assert Updates(r.sent) == {q};
    assert Corrects(v, r.view, p, k, q);
  }

  lemma NothingSent(v: View, p: Packet, env: Env)
    requires Valid(v) && IsNotice(v, p) && |Process(v, p, env).view.owner| == CLUSTER_SLOTS
    requires forall k | 0 <= k < CLUSTER_SLOTS :: !Stale(v, Process(v, p, env).view, p, k)
    ensures Updates(Process(v, p, env).sent) == {}
  {
    SettledUpdates(v, p, env);
    SameStale(v, p, env);
    hide Process, Settled, Dirty, SwitchRole, TakeHeader;
    NoCorrection(Settled(v, p, env), p, 0);
  }

  /** The slots that a packet claims are not those of node `m` in the table. */
  ghost predicate Differs(w: View, p: Packet, m: Id) {
    exists k: nat :: (k in p.slots) != (k < |w.owner| && w.owner[k] == Some(m))
  }

  /** A replica shows the slots of its master. It is corrected in the same way if its master is known and these are not
      the slots the master is known to own. */
  lemma ReplicaIsCorrected(v: View, p: Packet, env: Env)
    requires Valid(v) && IsNotice(v, p) && p.slaveof.Some?
    ensures
      var r, m := Process(v, p, env), if p.slaveof.value in v.peers then p.slaveof else v.peers[p.sender].slaveof;
      && |r.view.owner| == CLUSTER_SLOTS
      && (m.Some? && Differs(r.view, p, m.value) ==>
            forall k | 0 <= k < CLUSTER_SLOTS && FirstStale(v, r.view, p, 0, k) ::
              exists q :: Updates(r.sent) == {q} && Corrects(v, r.view, p, k, q))
      && (m.None? || !Differs(r.view, p, m.value) || (forall k | 0 <= k < CLUSTER_SLOTS :: !Stale(v, r.view, p, k)) ==>
            Updates(r.sent) == {})
  {
    SettledView(v, p, env);
    SettledUpdates(v, p, env);
    ReplicaIsDirty(v, p, env);
    var r, m := Process(v, p, env), if p.slaveof.value in v.peers then p.slaveof else v.peers[p.sender].slaveof;
    hide Process, Settled, Correction, Dirty, Differs, SwitchRole, TakeHeader, Valid;
    if m.Some? && Differs(r.view, p, m.value) {
      forall k | 0 <= k < CLUSTER_SLOTS && FirstStale(v, r.view, p, 0, k)
        ensures exists q :: Updates(r.sent) == {q} && Corrects(v, r.view, p, k, q)
      {
        CorrectionSent(v, p, env, k);
      }
    }
    if forall k | 0 <= k < CLUSTER_SLOTS :: !Stale(v, r.view, p, k) {
      NothingSent(v, p, env);
    }
  }

  lemma ReplicaIsDirty(v: View, p: Packet, env: Env)
    requires Valid(v) && IsNotice(v, p) && p.slaveof.Some?
    ensures
      var w, m := Process(v, p, env).view, if p.slaveof.value in v.peers then p.slaveof else v.peers[p.sender].slaveof;
      var v1 := TakeHeader(v, p);
      p.sender in v1.peers && (Dirty(SwitchRole(v1, p), p) <==> m.Some? && Differs(w, p, m.value))
  {
    HeaderValid(v, p);
    var v1 := TakeHeader(v, p);
    SwitchRoleValid(v1, p);
    RoleOfReplica(v1, p);
    SettledView(v, p, env);
    var v2, w := SwitchRole(v1, p), Process(v, p, env).view;
    assert v2.owner == w.owner by { assert Settled(v, p, env) == v2; }
    var m := v2.peers[p.sender].slaveof;
    assert m == if p.slaveof.value in v.peers then p.slaveof else v.peers[p.sender].slaveof;
    hide Process, SwitchRole, TakeHeader, Valid, Settled;
    if m.Some? {
      SameSlots(v2, p, m.value);
    }
  }

  lemma SameSlots(v: View, p: Packet, m: Id)
    ensures SlotsOf(v, m) != p.slots <==> Differs(v, p, m)
  {
    if !Differs(v, p, m) {
      assert forall k: nat :: k in p.slots <==> k < |v.owner| && v.owner[k] == Some(m);
    }
    if k :| 0 <= k && (k in p.slots) != (k < |v.owner| && v.owner[k] == Some(m)) {
      assert k in SlotsOf(v, m) <==> k < |v.owner| && v.owner[k] == Some(m);
    }
  }

  // ------------------------------------------------------------------
  // Which packets stop the server

  /** The claim takes every slot of the master of this replica, which keeps one of its own. */
  ghost predicate KeepsOwn(v: View, n: Id, epoch: nat, slots: set<nat>, env: Env)
    requires Valid(v)
  {
    && !v.peers[v.me].master && LosesAll(v, n, epoch, slots, env)
    && exists j :: 0 <= j < CLUSTER_SLOTS && v.owner[j] == Some(v.me) && !Goes(v, n, epoch, slots, j)
  }

  /** A replica that knows no master hears a claim to a free slot. */
  ghost predicate Masterless(v: View, slots: set<nat>, env: Env)
    requires Valid(v)
  {
    && !env.noRedirection && !v.peers[v.me].master && v.peers[v.me].slaveof.None?
    && exists j :: 0 <= j < CLUSTER_SLOTS && j in slots && j !in v.importing && v.owner[j].None?
  }

  ghost function FateOf(v: View, n: Id, epoch: nat, slots: set<nat>, env: Env): Fate
    requires Valid(v)
  {
    if KeepsOwn(v, n, epoch, slots, env) then OwnsSlots else if Masterless(v, slots, env) then NoMaster else Survives
  }

  lemma UpdateStops(v: View, n: Id, epoch: nat, slots: set<nat>, env: Env)
    requires Valid(v) && n != v.me
    ensures UpdateFate(v, n, epoch, slots, env) == FateOf(v, n, epoch, slots, env)
  {
    MissingMasterRead(v, n, epoch, slots, env);
    LosesAllIsDethroned(v, n, epoch, slots, env);
    if CurrentMaster(v).Some? {
      LeftOf(v, n, epoch, slots, v.me);
      TakenIsGoes(v, n, epoch, slots);
      OwnLeft(v, n, epoch, slots);
      LostOf(v, n, epoch, slots, CurrentMaster(v).value);
      hide Goes, SlotsOf, Taken, Moved, Lost, LosesAll, Claimed;
    }
  }

  lemma OwnLeft(v: View, n: Id, epoch: nat, slots: set<nat>)
    requires Valid(v)
    ensures SlotsOf(v, v.me) - Taken(v, n, epoch, slots) != {} <==>
      exists j :: 0 <= j < CLUSTER_SLOTS && v.owner[j] == Some(v.me) && !Goes(v, n, epoch, slots, j)
  {
    TakenIsGoes(v, n, epoch, slots);
    hide Goes, Taken;
    var left := SlotsOf(v, v.me) - Taken(v, n, epoch, slots);
    if j :| 0 <= j < CLUSTER_SLOTS && v.owner[j] == Some(v.me) && !Goes(v, n, epoch, slots, j) {
      assert j in left;
    }
  }

  lemma SameFate(u: View, v: View, n: Id, epoch: nat, slots: set<nat>, env: Env)
    requires Valid(u) && Valid(v) && SameGround(u, v, n)
    ensures FateOf(u, n, epoch, slots, env) == FateOf(v, n, epoch, slots, env)
  {
    SameGoes(u, v, n, epoch, slots);
    SameLoss(u, v, n, epoch, slots, env);
    hide Goes, LosesAll, Valid;
  }

  /** A claim that is already met stops nobody. */
  lemma CleanStopsNothing(v: View, p: Packet, env: Env)
    requires Valid(v) && p.sender in v.peers && v.peers[p.sender].master && !Dirty(v, p)
    ensures FateOf(v, p.sender, p.configEpoch, p.slots, env) == Survives
  {
    forall j | 0 <= j < CLUSTER_SLOTS && j in p.slots ensures v.owner[j] == Some(p.sender) {
      assert j in SlotsOf(v, p.sender);
    }
  }

  /** Hearing a master, the server stops exactly in these two cases. */
  lemma ClaimStops(v: View, p: Packet, env: Env)
    requires Valid(v) && IsClaim(v, p)
    ensures ProcessFate(v, p, env) == FateOf(v, p.sender, p.configEpoch, p.slots, env)
  {
    HeaderValid(v, p);
    var v1 := TakeHeader(v, p);
    SwitchRoleValid(v1, p);
    var v2 := SwitchRole(v1, p);
    assert SameGround(v2, v, p.sender) && v2.peers[p.sender].master;
    SameFate(v2, v, p.sender, p.configEpoch, p.slots, env);
    UpdateStops(v2, p.sender, p.configEpoch, p.slots, env);
    if !Dirty(v2, p) {
      CleanStopsNothing(v2, p, env);
    }
    hide TakeHeader, SwitchRole, Dirty, UpdateFate, FateOf, SameGround, Valid;
  }

  /** An UPDATE stops the server in the same cases, if it is news about another node; no other kind of packet does. */
  lemma OthersStop(v: View, p: Packet, env: Env)
    requires Valid(v) && p.sender in v.peers && !p.body.Ping? && !p.body.Pong?
    ensures Valid(TakeHeader(v, p))
    ensures ProcessFate(v, p, env) ==
      if p.body.Update? && News(v, p) && p.body.node != v.me
      then FateOf(TakeHeader(v, p), p.body.node, p.body.epoch, p.body.claim, env) else Survives
  {
    HeaderValid(v, p);
    var v1 := TakeHeader(v, p);
    if p.body.Update? {
      assert IsNews(v1, p) <==> News(v, p);
      if News(v, p) && p.body.node != v.me {
        ReportedGround(v1, p);
        var v2 := Reported(v1, p);
        hide Reported, TakeHeader, Valid;
        SameFate(v2, v1, p.body.node, p.body.epoch, p.body.claim, env);
        UpdateStops(v2, p.body.node, p.body.epoch, p.body.claim, env);
        hide FateOf, UpdateFate, SameGround;
      }
    }
  }

  /** A replica that is heard stops nobody. */
  lemma ReplicaStopsNobody(v: View, p: Packet, env: Env)
    requires Valid(v) && IsNotice(v, p) && p.slaveof.Some?
    ensures ProcessFate(v, p, env) == Survives
  {
    HeaderValid(v, p);
    SwitchRoleValid(TakeHeader(v, p), p);
    RoleOfReplica(TakeHeader(v, p), p);
    hide TakeHeader, SwitchRole, UpdateFate, Dirty;
  }

  // ------------------------------------------------------------------
  // Two nodes

  /** The failover reaches another node: every slot of the replaced master that the receiver does not import, and knows
      as free or with a smaller epoch, belongs to the winner once its PONG is heard. */
  lemma WinnerIsHeard(v: View, env: Env, u: View, p: Packet, env': Env)
    requires Valid(v) && Candidate(v, env) && Elected(v, env) && p in Tick(v, env).sent
    requires Valid(u) && u.me == p.dst && v.me in u.peers && ProcessFate(u, p, env') == Survives
    ensures
      var w := Process(u, p, env').view;
      && |w.owner| == CLUSTER_SLOTS && v.me in w.peers && w.peers[v.me].master
      && forall j | 0 <= j < CLUSTER_SLOTS && v.owner[j] == v.peers[v.me].slaveof && j !in u.importing &&
                    (u.owner[j].Some? ==> u.peers[u.owner[j].value].configEpoch < v.election.epoch) ::
           w.owner[j] == Some(v.me)
  {
    WinnerTakesSlots(v, env);
    TimerAnnounces(v, env, p);
    hide Candidate, Elected, Tick, Process, ProcessFate, LosesAll;
    ClaimIsHeard(u, p, env');
  }

  /** The replaced master comes back: hearing the winner it gives up its slots and becomes its replica. */
  lemma OldMasterFollows(v: View, env: Env, u: View, p: Packet, env': Env)
    requires Valid(v) && Candidate(v, env) && Elected(v, env) && p in Tick(v, env).sent
    requires Valid(u) && u.me == p.dst && v.me in u.peers && ProcessFate(u, p, env') == Survives
    requires v.peers[v.me].slaveof == Some(u.me) && u.peers[u.me].master && !env'.noRedirection
    requires u.peers[u.me].configEpoch < v.election.epoch
    requires exists j :: 0 <= j < CLUSTER_SLOTS && u.owner[j] == Some(u.me)
    requires forall j | 0 <= j < CLUSTER_SLOTS && u.owner[j] == Some(u.me) ::
      v.owner[j] == Some(u.me) && j !in u.importing
    requires env'.allowReplicaMigration ||
      forall j | 0 <= j < CLUSTER_SLOTS && v.owner[j] in {Some(u.me), Some(v.me)} :: u.owner[j] == Some(u.me)
    ensures
      var w := Process(u, p, env').view;
      && |w.owner| == CLUSTER_SLOTS && u.me in w.peers
      && !w.peers[u.me].master && w.peers[u.me].slaveof == Some(v.me)
      && forall j | 0 <= j < CLUSTER_SLOTS :: w.owner[j] != Some(u.me)
  {
    WinnerTakesSlots(v, env);
    TimerAnnounces(v, env, p);
    hide Candidate, Elected, Tick, Process, ProcessFate;
    ClaimIsHeard(u, p, env');
    assert LosesAll(u, v.me, p.configEpoch, p.slots, env');
  }

  /** A master with an outdated table is put right: it announces a slot that the receiver knows to belong to `n`; the
      receiver answers with an UPDATE; and after that the master has the slot with `n` too. */
  lemma CorrectedMasterYields(s: View, p: Packet, r: View, env: Env, k: nat, q: Packet, env': Env)
    requires Valid(s) && s.peers[s.me].master && s.peers[s.me].slaveof.None? && Announces(s, p)
    requires Valid(r) && IsClaim(r, p) && ProcessFate(r, p, env) == Survives && k < CLUSTER_SLOTS
    requires |Process(r, p, env).view.owner| == CLUSTER_SLOTS && FirstStale(r, Process(r, p, env).view, p, 0, k)
    requires q in Process(r, p, env).sent && q.body.Update?
    requires r.me in s.peers && q.body.node in s.peers && q.body.node != r.me && k !in s.importing
    requires s.peers[q.body.node].configEpoch < q.body.epoch && ProcessFate(s, q, env') == Survives
    ensures
      var w := Process(s, q, env').view;
      |w.owner| == CLUSTER_SLOTS && w.owner[k] == Process(r, p, env).view.owner[k] == Some(q.body.node)
  {
    OutdatedIsCorrected(r, p, env);
    var t := Process(r, p, env).view;
    assert Corrects(r, t, p, k, q) by {
      assert q in Updates(Process(r, p, env).sent);
    }
    hide Process, ProcessFate, LosesAll;
    assert s.owner[k] == Some(s.me);
    UpdateIsHeard(s, q, env');
    HeaderValid(s, q);
    assert Goes(TakeHeader(s, q), q.body.node, q.body.epoch, q.body.claim, k);
  }

  // ------------------------------------------------------------------
  // FAIL, FORGET and BUMPEPOCH

  /** A FAIL packet marks the named node, unless it is this one or not known, and nothing else. */
  lemma FailIsHeard(v: View, p: Packet, env: Env)
    requires Valid(v) && p.sender in v.peers && p.body.Fail?
    ensures
      var w := Process(v, p, env).view;
      && w.owner == v.owner && w.election == v.election && w.peers.Keys == v.peers.Keys
      && forall n | n in v.peers ::
           && w.peers[n].failed == (v.peers[n].failed || (n == p.body.about && n != v.me))
           && w.peers[n].master == v.peers[n].master && w.peers[n].slaveof == v.peers[n].slaveof
  {
  }

  /** A node that is forgotten is not known, owns nothing and is nobody's master; the others keep what they have. */
  lemma ForgottenIsGone(v: View, n: Id, importing: set<nat>)
    requires Valid(v) && n != v.me
    ensures
      var w := DelNode(v, n, importing);
      && w.peers.Keys == v.peers.Keys - {n} && |w.owner| == CLUSTER_SLOTS
      && (forall j | 0 <= j < CLUSTER_SLOTS :: w.owner[j] == if v.owner[j] == Some(n) then None else v.owner[j])
      && forall m | m in w.peers ::
           && w.peers[m].master == v.peers[m].master
           && w.peers[m].slaveof == if v.peers[m].slaveof == Some(n) then None else v.peers[m].slaveof
  {
  }

  /** This node has an epoch, and none known is greater. */
  ghost predicate Ahead(v: View)
    requires v.me in v.peers
  {
    && v.peers[v.me].configEpoch > 0 && v.currentEpoch <= v.peers[v.me].configEpoch
    && forall n | n in v.peers :: v.peers[n].configEpoch <= v.peers[v.me].configEpoch
  }

  /** BUMPEPOCH puts this node ahead, in an epoch that no other node is known with, and does nothing if and only if it
      is ahead already. */
  lemma BumpPutsAhead(v: View)
    requires Valid(v) && Dominated(v)
    ensures
      var w := BumpWithoutConsensus(v);
      && w.me == v.me && v.me in w.peers && Ahead(w) && (w == v <==> Ahead(v))
      && (w != v ==> forall n | n in w.peers && n != v.me :: w.peers[n].configEpoch < w.peers[v.me].configEpoch)
      && w.owner == v.owner
  {
  }
}
