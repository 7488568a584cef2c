/** What a failover and its announcements mean, from the timer that wins the election to the old master that comes
    back: stated on slot tables, roles and packets, for every view. */
module ClusterFailover {
  import opened Options
  import opened ClusterView
  import opened ClusterFate
  import opened ClusterSlots

  // ------------------------------------------------------------------
  // The winner

  /** A replica of a failing master that owns slots, or of one that hands over. */
  ghost predicate Candidate(v: View, env: Env)
    requires Valid(v)
  {
    var manual := v.mfEnd && v.mfCanStart;
    && !v.peers[v.me].master && v.peers[v.me].slaveof.Some?
    && (exists j :: 0 <= j < CLUSTER_SLOTS && v.owner[j] == v.peers[v.me].slaveof)
    && (manual || (v.peers[v.peers[v.me].slaveof.value].failed && !env.noFailover && !env.dataTooOld))
  }

  /** Votes of more than half of the masters, asked for and answered in time. */
  ghost predicate Elected(v: View, env: Env) {
    var t := env.now - v.election.time;
    && v.election.sent && 2 * v.election.count > v.size
    && 0 <= t && (t <= 2000 || t <= 2 * env.nodeTimeout)
  }

  lemma CandidateHasSlots(v: View, env: Env)
    requires Valid(v) && !Me(v).master && Me(v).slaveof.Some?
    ensures SlotsOf(v, Me(v).slaveof.value) != {} <==>
      exists j :: 0 <= j < CLUSTER_SLOTS && v.owner[j] == v.peers[v.me].slaveof
  {
    var m := Me(v).slaveof.value;
    if j :| 0 <= j < CLUSTER_SLOTS && v.owner[j] == Some(m) {
      assert j in SlotsOf(v, m);
    }
  }

  lemma WinBranch(v: View, env: Env)
    requires Valid(v)
    ensures Branch(v, env) == Win <==> Candidate(v, env) && Elected(v, env)
  {
    hide SlotsOf;
    if !Me(v).master && Me(v).slaveof.Some? {
      CandidateHasSlots(v, env);
    }
  }

  /** The failover timer makes a node a master if and only if it is a candidate with the votes of a majority; a node
      that was a master stays one. */
  lemma TimerPromotes(v: View, env: Env)
    requires Valid(v)
    ensures
      var w := Tick(v, env).view;
      && w.me == v.me && v.me in w.peers
      && (w.peers[v.me].master <==> v.peers[v.me].master || (Candidate(v, env) && Elected(v, env)))
  {
    WinBranch(v, env);
    TickValid(v, env);
    hide Candidate, Elected, SlotsOf, MayFailover, Broadcast, Siblings, ClusterSize;
  }

  /** The winner owns what it owned and everything its master owned; every other slot stays where it was. It is a
      master without a master, with an epoch that is not below that of the election. Every node it knows is sent a
      PONG that claims exactly these slots with this epoch. */
  lemma WinnerTakesSlots(v: View, env: Env)
    requires Valid(v) && Candidate(v, env) && Elected(v, env)
    ensures
      var m := v.peers[v.me].slaveof.value;
      var r := Tick(v, env);
      var w := r.view;
      && w.me == v.me && w.peers.Keys == v.peers.Keys && |w.owner| == CLUSTER_SLOTS
      && (forall j | 0 <= j < CLUSTER_SLOTS ::
            w.owner[j] == if v.owner[j] == Some(m) then Some(v.me) else v.owner[j])
      && w.peers[v.me].master && w.peers[v.me].slaveof.None?
      && v.election.epoch <= w.peers[v.me].configEpoch && v.peers[v.me].configEpoch <= w.peers[v.me].configEpoch
      && (forall n | n in v.peers && n != v.me :: w.peers[n] == v.peers[n])
      && !w.mfEnd && !w.mfCanStart && (if env.stateUpdated then CountsOwners(w) else w.size == v.size)
      && (forall q | q in r.sent :: q.body == Pong && Announces(w, q))
      && (forall n | n in v.peers :: n != v.me <==> exists q :: q in r.sent && q.dst == n)
  {
    WinBranch(v, env);
    PromoteValid(v, env);
    hide Candidate, Elected, Branch;
    var w := Promote(v, env);
    PromotedTable(v, env);
    forall q | q in Broadcast(w, Pong) ensures q.body == Pong && Announces(w, q) {
      BuildAnnounces(w, q.dst, Pong);
    }
    forall n | n in v.peers ensures n != v.me <==> exists q :: q in Broadcast(w, Pong) && q.dst == n {
      if n != v.me {
        assert Build(w, n, Pong) in Broadcast(w, Pong);
      }
    }
  }

  lemma PromotedTable(v: View, env: Env)
    requires Valid(v) && !Me(v).master && Me(v).slaveof.Some?
    ensures
      var m := Me(v).slaveof.value;
      var w := Promote(v, env);
      && |w.owner| == CLUSTER_SLOTS
      && (forall j | 0 <= j < CLUSTER_SLOTS ::
            w.owner[j] == if v.owner[j] == Some(m) then Some(v.me) else v.owner[j])
      && w.peers == v.peers[v.me := w.peers[v.me]]
      && w.peers[v.me].master && w.peers[v.me].slaveof.None?
      && w.peers[v.me].configEpoch == Max(Me(v).configEpoch, v.election.epoch)
      && !w.mfEnd && !w.mfCanStart && (if env.stateUpdated then CountsOwners(w) else w.size == v.size)
  {
    var w := Promote(v, env);
    if env.stateUpdated {
      var w0 := w.(size := v.size);
      assert w == w0.(size := ClusterSize(w0));
      OwnersCounted(w0, ClusterSize(w0));
    }
    hide ClusterSize, CountsOwners;
  }

  /** The size of the cluster is the number of masters with a slot. */
  ghost predicate CountsOwners(v: View) {
    var owners := set n | n in v.peers && v.peers[n].master && exists j :: 0 <= j < |v.owner| && v.owner[j] == Some(n);
    v.size == |owners|
  }

  lemma OwnersCounted(v: View, size: nat)
    ensures size == ClusterSize(v) <==> CountsOwners(v.(size := size))
  {
    forall n | n in v.peers
      ensures SlotsOf(v, n) != {} <==> exists j :: 0 <= j < |v.owner| && v.owner[j] == Some(n)
    {
      if j :| 0 <= j < |v.owner| && v.owner[j] == Some(n) {
        assert j in SlotsOf(v, n);
      }
    }
    assert (set n | n in v.peers && v.peers[n].master && SlotsOf(v, n) != {})
        == (set n | n in v.peers && v.peers[n].master && exists j :: 0 <= j < |v.owner| && v.owner[j] == Some(n));
  }

  /** In sets: nothing is left to the old master, and nothing else moves. */
  lemma WinnerSlots(v: View, env: Env)
    requires Valid(v) && Candidate(v, env) && Elected(v, env) && v.peers[v.me].slaveof != Some(v.me)
    ensures
      var m := v.peers[v.me].slaveof.value;
      var w := Tick(v, env).view;
      && SlotsOf(w, v.me) == SlotsOf(v, v.me) + SlotsOf(v, m) && SlotsOf(w, m) == {}
      && forall n | n != v.me && n != m :: SlotsOf(w, n) == SlotsOf(v, n)
  {
    WinnerTakesSlots(v, env);
  }

  // ------------------------------------------------------------------
  // What a packet says

  /** The node whose slots and epoch a node shows: itself, or the master it replicates. */
  function Face(v: View): Id
    requires v.me in v.peers
  {
    if v.peers[v.me].master || v.peers[v.me].slaveof.None? then v.me else v.peers[v.me].slaveof.value
  }

  /** The packet tells the truth about `v`. */
  ghost predicate Announces(v: View, q: Packet)
    requires v.me in v.peers
  {
    && q.sender == v.me && q.currentEpoch == v.currentEpoch && q.slaveof == v.peers[v.me].slaveof
    && Face(v) in v.peers && q.configEpoch == v.peers[Face(v)].configEpoch
    && forall j: nat :: j in q.slots <==> j < |v.owner| && v.owner[j] == Some(Face(v))
  }

  lemma BuildAnnounces(v: View, dst: Id, body: Body)
    requires Valid(v)
    ensures Announces(v, Build(v, dst, body)) && Build(v, dst, body).dst == dst && Build(v, dst, body).body == body
  {
  }

  /** Every packet of the timer tells the truth about the node as it is afterwards. */
  lemma TimerAnnounces(v: View, env: Env, q: Packet)
    requires Valid(v) && q in Tick(v, env).sent
    ensures
      var w := Tick(v, env).view;
      w.me in w.peers && Announces(w, q) && q.dst in v.peers && q.dst != v.me
  {
    TickValid(v, env);
    var w := Tick(v, env).view;
    hide Announces, MayFailover, Branch;
    BuildAnnounces(w, q.dst, q.body);
    assert q == Build(w, q.dst, q.body);
  }

  /** A PING is answered with a PONG that tells the truth, also to a node that is not known. */
  lemma PingIsAnswered(v: View, p: Packet, env: Env)
    requires Valid(v) && p.body.Ping?
    ensures
      var w := if p.sender in v.peers then TakeHeader(v, p) else v;
      w.me in w.peers &&
      exists q :: q in Process(v, p, env).sent && q.dst == p.sender && q.body == Pong && Announces(w, q)
  {
    if p.sender in v.peers {
      HeaderValid(v, p);
      hide Announces, TakeHeader, ProcessConfig;
      BuildAnnounces(TakeHeader(v, p), p.sender, Pong);
      assert Build(TakeHeader(v, p), p.sender, Pong) in Process(v, p, env).sent;
    } else {
      hide Announces;
      BuildAnnounces(v, p.sender, Pong);
      assert Build(v, p.sender, Pong) in Process(v, p, env).sent;
    }
  }

  // ------------------------------------------------------------------
  // The voter

  /** A request deserves a vote: it comes from a replica, its master is failing or hands over, no replica of this
      master was voted for within twice the node timeout, and no claimed slot is known with a greater epoch. */
  ghost predicate Deserves(v: View, p: Packet, env: Env)
    requires Valid(v) && p.sender in v.peers && p.body.AuthRequest?
  {
    var c := v.peers[p.sender];
    && !c.master && c.slaveof.Some?
    && (p.body.forceAck || v.peers[c.slaveof.value].failed)
    && v.peers[c.slaveof.value].votedTime + 2 * env.nodeTimeout <= env.now
    && !exists j :: 0 <= j < CLUSTER_SLOTS && j in p.slots && v.owner[j].Some? &&
                    v.peers[v.owner[j].value].configEpoch > p.configEpoch
  }

  /** This node has a vote in the epoch of the request: it is a master with a slot that has neither seen a later
      epoch nor voted in this one. */
  ghost predicate HasVote(v: View, p: Packet)
    requires Valid(v)
  {
    && v.peers[v.me].master && (exists j :: 0 <= j < CLUSTER_SLOTS && v.owner[j] == Some(v.me))
    && v.currentEpoch <= p.currentEpoch && v.lastVoteEpoch != p.currentEpoch
  }

  /** A request is answered if and only if the node has a vote and the request deserves it. The answer is one
      acknowledgement, the epoch of the vote is recorded, and so is its time, for the master to be replaced. */
  lemma RequestIsAnswered(v: View, p: Packet, env: Env)
    requires Valid(v) && p.sender in v.peers && p.body.AuthRequest?
    ensures
      var r := Process(v, p, env);
      if HasVote(v, p) && Deserves(v, p, env) then
        var m := v.peers[p.sender].slaveof.value;
        && (exists q :: r.sent == {q} && q.dst == p.sender && q.body == AuthAck && q.currentEpoch == p.currentEpoch)
        && r.view.lastVoteEpoch == p.currentEpoch
        && r.view.peers.Keys == v.peers.Keys && r.view.peers[m].votedTime == env.now
        && forall n | n in v.peers && n != m :: r.view.peers[n].votedTime == v.peers[n].votedTime
      else
        && r.sent == {} && r.view.lastVoteEpoch == v.lastVoteEpoch && r.view.peers.Keys == v.peers.Keys
        && forall n | n in v.peers :: r.view.peers[n].votedTime == v.peers[n].votedTime
  {
    HeaderValid(v, p);
    VoteCondition(v, p, env);
    hide HasVote, Deserves, CanVote, SlotsOf;
    var v1, r := TakeHeader(v, p), Process(v, p, env);
    VoteValid(v1, p, env);
    if CanVote(v1, p, env) {
      assert r.sent == {Build(r.view, p.sender, AuthAck)};
    }
  }

  lemma OwnsSlot(v: View, n: Id)
    requires Valid(v)
    ensures SlotsOf(v, n) != {} <==> exists j :: 0 <= j < CLUSTER_SLOTS && v.owner[j] == Some(n)
  {
    if j :| 0 <= j < CLUSTER_SLOTS && v.owner[j] == Some(n) {
      assert j in SlotsOf(v, n);
    }
  }

  lemma VoteCondition(v: View, p: Packet, env: Env)
    requires Valid(v) && p.sender in v.peers && p.body.AuthRequest?
    ensures Valid(TakeHeader(v, p))
    ensures CanVote(TakeHeader(v, p), p, env) <==> HasVote(v, p) && Deserves(v, p, env)
  {
    HeaderValid(v, p);
    var v1 := TakeHeader(v, p);
    OwnsSlot(v, v.me);
    assert SlotsOf(v1, v.me) == SlotsOf(v, v.me);
    hide SlotsOf;
    HeaderEpochs(v, p);
  }

  lemma HeaderEpochs(v: View, p: Packet)
    requires Valid(v) && p.sender in v.peers
    ensures
      var w := TakeHeader(v, p);
      && w.owner == v.owner && w.currentEpoch == Max(v.currentEpoch, p.currentEpoch)
      && (forall n | n in v.peers :: n in w.peers && w.peers[n] == v.peers[n].(configEpoch := w.peers[n].configEpoch))
      && forall n | n in v.peers :: w.peers[n].configEpoch > p.configEpoch <==> v.peers[n].configEpoch > p.configEpoch
  {
  }

  /** A vote is counted if and only if it comes from a master that owns a slot and is not for an earlier epoch than
      the one this node asked for. */
  lemma AckIsCounted(v: View, p: Packet, env: Env)
    requires Valid(v) && p.sender in v.peers && p.body.AuthAck?
    ensures
      var w := Process(v, p, env).view;
      w.election == v.election.(count := v.election.count +
        if v.peers[p.sender].master && v.election.epoch <= p.currentEpoch &&
           (exists j :: 0 <= j < CLUSTER_SLOTS && v.owner[j] == Some(p.sender))
        then 1 else 0)
  {
    OwnsSlot(v, p.sender);
    assert SlotsOf(TakeHeader(v, p), p.sender) == SlotsOf(v, p.sender);
  }

  // ------------------------------------------------------------------
  // Asking and starting over

  /** The delay of a candidate that has not asked yet grows with its rank, unless the master hands over. */
  function StartTime(v: View, env: Env): int {
    v.election.time + if v.election.sent || v.mfEnd then 0 else env.addedDelay
  }

  function Greater(a: nat, b: nat): nat {
    if a > b then a else b
  }

  /** Another replica of the same master, or one of this node. */
  ghost predicate Sibling(v: View, n: Id)
    requires v.me in v.peers && n in v.peers
  {
    && n != v.me && !v.peers[n].master && v.peers[n].slaveof.Some?
    && (v.peers[n].slaveof == v.peers[v.me].slaveof || v.peers[n].slaveof == Some(v.me))
  }

  /** A candidate whose last attempt is over for long starts again without votes; one whose time has come asks, once,
      every node for its vote in a new epoch; otherwise votes, epoch and request stay as they are. */
  lemma TimerAsks(v: View, env: Env)
    requires Valid(v)
    ensures
      var r := Tick(v, env);
      var age, patience := env.now - v.election.time, Greater(2000, 2 * env.nodeTimeout);
      if Candidate(v, env) && age > 2 * patience then
        && r.view.election.count == 0 && !r.view.election.sent && r.view.election.epoch == v.election.epoch
        && r.view.election.time == env.now + (if v.mfEnd then 0 else env.delay)
        && r.view.currentEpoch == v.currentEpoch && (forall q | q in r.sent :: q.body == Pong)
        && (forall n | n in v.peers :: (exists q :: q in r.sent && q.dst == n) <==> Sibling(v, n))
      else if Candidate(v, env) && StartTime(v, env) <= env.now && age <= patience && !v.election.sent then
        && r.view.election.sent && r.view.election.epoch == r.view.currentEpoch == v.currentEpoch + 1
        && r.view.election.count == v.election.count
        && (forall q | q in r.sent :: q.body == AuthRequest(v.mfEnd) && q.currentEpoch == v.currentEpoch + 1)
        && (forall n | n in v.peers && n != v.me :: exists q :: q in r.sent && q.dst == n)
      else
        && r.view.election.(time := v.election.time) == v.election && r.view.currentEpoch == v.currentEpoch
        && forall q | q in r.sent :: q.body == Pong
  {
    AskBranches(v, env);
    hide Candidate, MayFailover, SlotsOf, Build, ClusterSize, Siblings, Sibling, Promote, Broadcast;
    if Branch(v, env) == Request {
      RequestsSent(v, env);
    } else if Branch(v, env) == Reset {
      SiblingsTold(v, env);
    } else {
      forall q | q in Tick(v, env).sent ensures q.body == Pong {
        WinnersPong(v, env, q);
      }
    }
  }

  lemma WinnersPong(v: View, env: Env, q: Packet)
    requires Valid(v) && Branch(v, env) == Win && q in Tick(v, env).sent
    ensures q.body == Pong
  {
    PromoteValid(v, env);
    hide Build, Promote, Branch;
    BuildAnnounces(Promote(v, env), q.dst, Pong);
    var n :| n in Promote(v, env).peers && q == Build(Promote(v, env), n, Pong);
    BuildAnnounces(Promote(v, env), n, Pong);
  }

  lemma RequestsSent(v: View, env: Env)
    requires Valid(v) && Branch(v, env) == Request
    ensures
      var r := Tick(v, env);
      && (forall q | q in r.sent :: q.body == AuthRequest(v.mfEnd) && q.currentEpoch == v.currentEpoch + 1)
      && (forall n | n in v.peers && n != v.me :: exists q :: q in r.sent && q.dst == n)
  {
    hide Branch, Build, Promote;
    var w, body := RequestVotes(Delayed(v, env)), AuthRequest(v.mfEnd);
    assert Tick(v, env).sent == Broadcast(w, body) && Valid(w) && w.currentEpoch == v.currentEpoch + 1;
    forall n | n in v.peers && n != v.me ensures exists q :: q in Tick(v, env).sent && q.dst == n {
      BuildAnnounces(w, n, body);
      assert Build(w, n, body) in Tick(v, env).sent;
    }
    forall q | q in Tick(v, env).sent ensures q.body == body && q.currentEpoch == v.currentEpoch + 1 {
      var n :| n in w.peers && q == Build(w, n, body);
      BuildAnnounces(w, n, body);
    }
  }

  lemma SiblingsTold(v: View, env: Env)
    requires Valid(v) && Branch(v, env) == Reset
    ensures
      var r := Tick(v, env);
      && (forall q | q in r.sent :: q.body == Pong)
      && (forall n | n in v.peers :: (exists q :: q in r.sent && q.dst == n) <==> Sibling(v, n))
  {
    hide Branch, Build, Promote;
    var w := ResetElection(v, env);
    assert forall n | n in v.peers :: n in Siblings(v) <==> Sibling(v, n);
    forall q | q in Tick(v, env).sent ensures q.body == Pong && q.dst in Siblings(v) {
      var n :| n in Siblings(v) && q == Build(w, n, Pong);
      BuildAnnounces(w, n, Pong);
    }
    forall n | n in Siblings(v) ensures exists q :: q in Tick(v, env).sent && q.dst == n {
      BuildAnnounces(w, n, Pong);
      assert Build(w, n, Pong) in Tick(v, env).sent;
    }
  }

  lemma AskBranches(v: View, env: Env)
    requires Valid(v)
    ensures
      var age, patience := env.now - v.election.time, Greater(2000, 2 * env.nodeTimeout);
      && (Branch(v, env) == Reset <==> Candidate(v, env) && age > 2 * patience)
      && (Branch(v, env) == Request <==>
            Candidate(v, env) && StartTime(v, env) <= env.now && age <= patience && !v.election.sent)
  {
    hide SlotsOf;
    if !Me(v).master && Me(v).slaveof.Some? {
      CandidateHasSlots(v, env);
    }
  }
}
