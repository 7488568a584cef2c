/** What the handlers of `ClusterView` do to the epochs and to the election. */
module ClusterEffects {
  import opened Options
  import opened ClusterView

  /** No epoch a node knows is greater than its current epoch. */
  ghost predicate Dominated(v: View) {
    && (forall n | n in v.peers :: v.peers[n].configEpoch <= v.currentEpoch)
    && v.lastVoteEpoch <= v.currentEpoch
    && v.election.epoch <= v.currentEpoch
  }

  ghost predicate PacketDominated(p: Packet) {
    p.configEpoch <= p.currentEpoch && (p.body.Update? ==> p.body.epoch <= p.currentEpoch)
  }

  /** The current epoch and the known epoch of every node never go back. */
  ghost predicate Advances(v: View, w: View) {
    && w.me == v.me
    && v.currentEpoch <= w.currentEpoch
    && (forall n | n in v.peers :: n in w.peers && v.peers[n].configEpoch <= w.peers[n].configEpoch)
  }

  /** The same for one node: it stays known, and neither epoch goes back. */
  ghost predicate AdvancesFor(v: View, w: View, n: Id) {
    && w.me == v.me && v.currentEpoch <= w.currentEpoch
    && (n in v.peers ==> n in w.peers && v.peers[n].configEpoch <= w.peers[n].configEpoch)
  }

  ghost predicate SameElection(v: View, w: View) {
    && w.lastVoteEpoch == v.lastVoteEpoch
    && w.election.epoch == v.election.epoch
    && w.election.count == v.election.count
    && w.election.sent == v.election.sent
  }

  /** The packet comes from `v` and is neither a vote nor a request for one. */
  ghost predicate Routine(v: View, p: Packet) {
    p.sender == v.me && PacketDominated(p) && p.currentEpoch <= v.currentEpoch
    && !p.body.AuthAck? && !p.body.AuthRequest?
  }

  lemma BuildRoutine(v: View, dst: Id, body: Body)
    requires Valid(v) && Dominated(v)
    requires !body.AuthAck? && !body.AuthRequest?
    requires body.Update? ==> body.epoch <= v.currentEpoch
    ensures Routine(v, Build(v, dst, body))
  {
  }

  lemma {:induction false} CorrectionRoutine(v: View, p: Packet, j: nat)
    requires Valid(v) && Dominated(v) && j <= CLUSTER_SLOTS
    ensures forall q | q in Correction(v, p, j) :: Routine(v, q)
    decreases CLUSTER_SLOTS - j
  {
    if j < CLUSTER_SLOTS {
      if Outdated(v, p, j) {
        var n := v.owner[j].value;
        BuildRoutine(v, p.sender, Update(n, v.peers[n].configEpoch, SlotsOf(v, n)));
      } else {
        CorrectionRoutine(v, p, j + 1);
      }
    }
  }

  lemma HeaderEffects(v: View, p: Packet)
    requires Valid(v) && Dominated(v) && PacketDominated(p) && p.sender in v.peers
    ensures Dominated(TakeHeader(v, p)) && Advances(v, TakeHeader(v, p)) && SameElection(v, TakeHeader(v, p))
    ensures p.currentEpoch <= TakeHeader(v, p).currentEpoch
  {
  }

  /** Same epochs and election; roles and slots may differ. */
  ghost predicate SameEpochs(v: View, w: View) {
    && w.me == v.me && w.currentEpoch == v.currentEpoch && SameElection(v, w)
    && w.peers.Keys == v.peers.Keys
    && (forall n | n in v.peers :: w.peers[n].configEpoch == v.peers[n].configEpoch)
  }

  lemma SameEpochsDominated(v: View, w: View)
    requires SameEpochs(v, w) && Dominated(v)
    ensures Dominated(w) && Advances(v, w)
  {
  }

  lemma PeerEffects(v: View, n: Id, p: Peer)
    requires n in v.peers && p.configEpoch == v.peers[n].configEpoch
    ensures SameEpochs(v, WithPeer(v, n, p))
  {
  }

  lemma SlotEffects(v: View, sender: Id, epoch: nat, slots: set<nat>, env: Env)
    requires Valid(v) && sender in v.peers
    ensures SameEpochs(v, UpdateSlotsConfigWith(v, sender, epoch, slots, env))
  {
    PeerEffects(v, v.me, Me(v).(master := false, slaveof := Some(sender)));
  }

  lemma RoleEffects(v: View, p: Packet)
    requires Valid(v) && p.sender in v.peers
    ensures SameEpochs(v, SwitchRole(v, p))
  {
    var peer := v.peers[p.sender];
    if p.slaveof.None? {
      PeerEffects(v, p.sender, peer.(master := true, slaveof := None));
    } else {
      var v1 := v;
      if peer.master {
        var v0 := Rebind(v, SlotsOf(v, p.sender), None);
        PeerEffects(v0, p.sender, peer.(master := false));
        v1 := WithPeer(v0, p.sender, peer.(master := false));
      }
      PeerEffects(v1, p.sender, v1.peers[p.sender].(slaveof := p.slaveof));
    }
  }

  lemma ClaimEffects(v: View, p: Packet, env: Env)
    requires Valid(v) && p.sender in v.peers
    ensures SameEpochs(v, TakeClaims(v, p, env))
  {
    SlotEffects(v, p.sender, p.configEpoch, p.slots, env);
  }

  lemma BumpEffects(v: View)
    requires Valid(v) && Dominated(v)
    ensures Valid(BumpOwnEpoch(v)) && Dominated(BumpOwnEpoch(v)) && Advances(v, BumpOwnEpoch(v))
    ensures SameElection(v, BumpOwnEpoch(v))
    ensures Me(v).configEpoch < Me(BumpOwnEpoch(v)).configEpoch
  {
  }

  lemma ConfigEffects(v: View, p: Packet, env: Env)
    requires Valid(v) && Dominated(v) && p.sender in v.peers
    ensures
      var r := ProcessConfig(v, p, env);
      Dominated(r.view) && Advances(v, r.view) && SameElection(v, r.view) &&
      forall q | q in r.sent :: Routine(r.view, q)
  {
    var v1 := SwitchRole(v, p);
    SwitchRoleValid(v, p);
    RoleEffects(v, p);
    SameEpochsDominated(v, v1);
    var v2 := TakeClaims(v1, p, env);
    TakeClaimsValid(v1, p, env);
    ClaimEffects(v1, p, env);
    SameEpochsDominated(v1, v2);
    BumpEffects(v2);
    CorrectionRoutine(v2, p, 0);
  }

  lemma ReportEffects(v: View, p: Packet)
    requires Valid(v) && Dominated(v) && p.body.Update? && p.body.epoch <= v.currentEpoch && IsNews(v, p)
    ensures
      var w := Reported(v, p);
      Valid(w) && Dominated(w) && Advances(v, w) && SameElection(v, w) && p.body.node in w.peers
  {
    hide SlotsOf;
  }

  lemma AdvancesOn(u: View, v: View, w: View)
    requires Advances(u, v) && Advances(v, w)
    ensures Advances(u, w)
  {
  }

  lemma UpdateEffects(v: View, p: Packet, env: Env)
    requires Valid(v) && Dominated(v) && p.body.Update? && p.body.epoch <= v.currentEpoch
    ensures
      var w := ProcessUpdate(v, p, env);
      Dominated(w) && Advances(v, w) && SameElection(v, w)
  {
    if IsNews(v, p) {
      ReportEffects(v, p);
      var v2 := Reported(v, p);
      hide UpdateSlotsConfigWith, Reported, Valid, Dominated, Advances;
      SlotEffects(v2, p.body.node, p.body.epoch, p.body.claim, env);
      var w := ProcessUpdate(v, p, env);
      SameEpochsDominated(v2, w);
      AdvancesOn(v, v2, w);
    }
  }

  /** A packet that is neither a vote nor a request changes no election field. */
  lemma ProcessRoutine(v: View, p: Packet, env: Env)
    requires Valid(v) && Dominated(v) && PacketDominated(p)
    requires p.sender in v.peers ==> !p.body.AuthAck? && !p.body.AuthRequest?
    ensures
      var r := Process(v, p, env);
      Dominated(r.view) && Advances(v, r.view) && SameElection(v, r.view) &&
      forall q | q in r.sent :: Routine(r.view, q)
  {
    hide Valid, ProcessConfig, ProcessUpdate, Build;
    if p.sender !in v.peers {
      BuildRoutine(v, p.sender, Pong);
    } else {
      var v1 := TakeHeader(v, p);
      HeaderValid(v, p);
      HeaderEffects(v, p);
      match p.body {
        case Ping =>
          ConfigEffects(v1, p, env);
          BuildRoutine(v1, p.sender, Pong);
        case Pong => ConfigEffects(v1, p, env);
        case Fail(_) =>
        case Update(_, _, _) => UpdateEffects(v1, p, env);
        case Other =>
      }
    }
  }

  /** A vote: the voter had not voted in this epoch, which is the one requested. */
  lemma VoteEffects(v: View, p: Packet, env: Env)
    requires Valid(v) && Dominated(v) && PacketDominated(p) && p.sender in v.peers && p.body.AuthRequest?
    ensures
      var v1 := TakeHeader(v, p);
      var r := Process(v, p, env);
      && Valid(v1) && Dominated(r.view) && Advances(v, r.view)
      && r.view.election == v.election
      && (!CanVote(v1, p, env) ==> r.sent == {} && r.view.lastVoteEpoch == v.lastVoteEpoch)
      && (CanVote(v1, p, env) ==>
            && v.lastVoteEpoch < r.view.lastVoteEpoch == r.view.currentEpoch == p.currentEpoch
            && exists ack | ack in r.sent ::
                 && r.sent == {ack} && ack.body.AuthAck? && ack.sender == v.me && ack.dst == p.sender
                 && ack.currentEpoch == p.currentEpoch && PacketDominated(ack))
  {
    HeaderValid(v, p);
    HeaderEffects(v, p);
    var v1 := TakeHeader(v, p);
    VoteValid(v1, p, env);
    if CanVote(v1, p, env) {
      var r := Process(v, p, env);
      var ack := Build(r.view, p.sender, AuthAck);
      assert ack in r.sent;
    }
  }

  lemma CountEffects(v: View, p: Packet, env: Env)
    requires Valid(v) && Dominated(v) && PacketDominated(p) && p.sender in v.peers && p.body.AuthAck?
    ensures
      var r := Process(v, p, env);
      && Dominated(r.view) && Advances(v, r.view) && r.sent == {}
      && r.view.lastVoteEpoch == v.lastVoteEpoch
      && r.view.election ==
           if Counts(TakeHeader(v, p), p) then v.election.(count := v.election.count + 1) else v.election
  {
    HeaderEffects(v, p);
  }

  lemma TickEffects(v: View, env: Env)
    requires Valid(v) && Dominated(v)
    ensures
      var r := Tick(v, env);
      && Dominated(r.view) && Advances(v, r.view) && r.view.lastVoteEpoch == v.lastVoteEpoch
      && (Branch(v, env) in {Idle, Win} ==> SameElection(v, r.view))
      && (Branch(v, env) != Request ==> forall q | q in r.sent :: Routine(r.view, q))
  {
    match Branch(v, env) {
      case Win =>
        PromoteValid(v, env);
        PromoteEffects(v, env);
        var w := Promote(v, env);
        forall q | q in Tick(v, env).sent ensures Routine(w, q) {
          BuildRoutine(w, q.dst, Pong);
        }
      case Reset =>
        var w := ResetElection(v, env);
        forall q | q in Tick(v, env).sent ensures Routine(w, q) {
          BuildRoutine(w, q.dst, Pong);
        }
      case Request =>
      case Idle =>
    }
  }

  lemma PromoteEffects(v: View, env: Env)
    requires Valid(v) && Dominated(v)
    ensures Dominated(Promote(v, env)) && Advances(v, Promote(v, env)) && SameElection(v, Promote(v, env))
  {
  }

  /** Asking for votes: the election gets a fresh epoch, which every request carries. */
  lemma RequestEffects(v: View, env: Env)
    requires Valid(v) && Dominated(v) && Branch(v, env) == Request
    ensures
      var r := Tick(v, env);
      && r.view.election.epoch == r.view.currentEpoch == v.currentEpoch + 1
      && r.view.election.sent && !v.election.sent && r.view.election.count == v.election.count
      && forall q | q in r.sent ::
           q.body.AuthRequest? && q.sender == v.me && q.currentEpoch == r.view.currentEpoch && PacketDominated(q)
  {
  }

  /** Forgetting a node changes no epoch and no election, and what is known of other nodes stays. */
  lemma ForgetEffects(v: View, n: Id, importing: set<nat>)
    requires Valid(v) && n != v.me
    ensures
      var w := DelNode(v, n, importing);
      && Valid(w) && (Dominated(v) ==> Dominated(w)) && SameElection(v, w)
      && w.me == v.me && w.currentEpoch == v.currentEpoch
      && Me(w).configEpoch == Me(v).configEpoch && Me(w).master == Me(v).master
      && forall m | m != n :: AdvancesFor(v, w, m)
  {
  }
}
