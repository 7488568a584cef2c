/** The cluster as a whole: every node's view, the packets in flight, and a
    record of the votes granted, the votes counted and the elections won.
    Packets may be lost, delayed and delivered in any order, but not twice. */
module ClusterProtocol {
  import opened Options
  import opened ClusterView
  import opened ClusterEffects

  /** `voter` gave its vote of `epoch` to `candidate`. */
  datatype Grant = Grant(voter: Id, epoch: nat, candidate: Id)

  /** What a candidate's `failover_auth_count` is made of since it was last reset:
      the votes that arrived after it asked for them, and the number of those
      that arrived before. */
  datatype Tally = Tally(voters: set<Id>, stale: nat)

  /** `candidate` passed the quorum test of `epoch` with this cluster size and tally. */
  datatype Victory = Victory(candidate: Id, epoch: nat, size: nat, tally: Tally)

  datatype Cluster = Cluster(
    views: map<Id, View>,
    net: multiset<Packet>,
    grants: set<Grant>,
    tallies: map<Id, Tally>,
    wins: set<Victory>)

  datatype Step =
    | Deliver(p: Packet, env: Env)
    | Lose(p: Packet)
    | Send(i: Id, dst: Id, body: Body)
    | Timer(i: Id, env: Env)
    | Bump(i: Id)
    | Local(i: Id, view: View)
    | Forget(i: Id, n: Id, importing: set<nat>)

  /** A change made by an operator, by failure detection or by a handshake: it may
      touch roles, slots, failure flags and new nodes, but no epoch and no election. */
  ghost predicate LocalChange(v: View, w: View) {
    && Valid(w) && w.me == v.me && w.currentEpoch == v.currentEpoch
    && w.lastVoteEpoch == v.lastVoteEpoch && w.election == v.election
    && (forall n | n in v.peers :: n in w.peers && w.peers[n].configEpoch == v.peers[n].configEpoch)
    && (forall n | n in w.peers && n !in v.peers :: w.peers[n].configEpoch == 0)
  }

  /** A packet is delivered only if the receiver survives it; a node that stops takes no more steps. */
  ghost predicate Enabled(c: Cluster, s: Step) {
    match s
    case Deliver(p, env) =>
      p in c.net && p.dst in c.views && Valid(c.views[p.dst]) && ProcessFate(c.views[p.dst], p, env) == Survives
    case Lose(p) => p in c.net
    case Send(i, dst, body) => i in c.views && dst != i && (body.Ping? || body.Pong? || body.Fail? || body.Other?)
    case Timer(i, _) => i in c.views
    case Bump(i) => i in c.views
    case Local(i, w) => i in c.views && LocalChange(c.views[i], w)
    case Forget(i, n, importing) => i in c.views && MayForget(c.views[i], n) && importing <= c.views[i].importing
  }

  /** CLUSTER FORGET accepts any node but this one and its master. */
  predicate MayForget(v: View, n: Id) {
    n in v.peers && n != v.me && v.me in v.peers && !(!Me(v).master && Me(v).slaveof == Some(n))
  }

  ghost predicate NodesOk(c: Cluster) {
    && c.tallies.Keys == c.views.Keys
    && forall i | i in c.views :: c.views[i].me == i && Valid(c.views[i])
  }

  predicate Grants(v: View, p: Packet, env: Env)
    requires Valid(v)
  {
    p.body.AuthRequest? && p.sender in v.peers &&
    (HeaderValid(v, p); CanVote(TakeHeader(v, p), p, env))
  }

  predicate CountsVote(v: View, p: Packet) {
    p.body.AuthAck? && p.sender in v.peers && Counts(TakeHeader(v, p), p)
  }

  /** The tally of `p.dst` with one more vote, stale if it did not ask yet. */
  function Tallied(c: Cluster, p: Packet): Tally
    requires p.dst in c.views && p.dst in c.tallies
  {
    var t := c.tallies[p.dst];
    if c.views[p.dst].election.sent then t.(voters := t.voters + {p.sender}) else t.(stale := t.stale + 1)
  }

  function Received(c: Cluster, p: Packet, env: Env): Cluster
    requires p.dst in c.views && p.dst in c.tallies && Valid(c.views[p.dst])
  {
    var v := c.views[p.dst];
    var r := Process(v, p, env);
    c.(views := c.views[p.dst := r.view],
       net := c.net - multiset{p} + multiset(r.sent),
       grants := if Grants(v, p, env) then c.grants + {Grant(p.dst, r.view.lastVoteEpoch, p.sender)} else c.grants,
       tallies := if CountsVote(v, p) then c.tallies[p.dst := Tallied(c, p)] else c.tallies)
  }

  function Ticked(c: Cluster, i: Id, env: Env): Cluster
    requires i in c.views && i in c.tallies && Valid(c.views[i])
  {
    var v := c.views[i];
    var r := Tick(v, env);
    c.(views := c.views[i := r.view],
       net := c.net + multiset(r.sent),
       tallies := if Branch(v, env) == Reset then c.tallies[i := Tally({}, 0)] else c.tallies,
       wins :=
         if Branch(v, env) == Win then c.wins + {Victory(i, v.election.epoch, v.size, c.tallies[i])} else c.wins)
  }

  ghost function Next(c: Cluster, s: Step): Cluster
    requires NodesOk(c) && Enabled(c, s)
  {
    match s
    case Deliver(p, env) => Received(c, p, env)
    case Lose(p) => c.(net := c.net - multiset{p})
    case Send(i, dst, body) => c.(net := c.net + multiset{Build(c.views[i], dst, body)})
    case Timer(i, env) => Ticked(c, i, env)
    case Bump(i) => c.(views := c.views[i := BumpWithoutConsensus(c.views[i])])
    case Local(i, w) => c.(views := c.views[i := w])
    case Forget(i, n, importing) => c.(views := c.views[i := DelNode(c.views[i], n, importing)])
  }

  ghost predicate Init(c: Cluster) {
    && NodesOk(c)
    && c.net == multiset{} && c.grants == {} && c.wins == {}
    && (forall i | i in c.views :: Dominated(c.views[i]))
    && (forall i | i in c.views :: c.views[i].election.count == 0 && !c.views[i].election.sent)
    && (forall i | i in c.views :: c.tallies[i] == Tally({}, 0))
  }

  ghost predicate IsStep(c: Cluster, s: Step, d: Cluster) {
    NodesOk(c) && Enabled(c, s) && d == Next(c, s)
  }

  /** `run[0]` is initial and each step leads from one cluster to the next. */
  ghost predicate IsRun(run: seq<Cluster>, steps: seq<Step>) {
    && |run| == |steps| + 1
    && Init(run[0])
    && forall k {:trigger steps[k]} | 0 <= k < |steps| :: IsStep(run[k], steps[k], run[k + 1])
  }

  // ------------------------------------------------------------------
  // Epochs

  ghost predicate ViewsOk(c: Cluster) {
    forall i | i in c.views :: c.views[i].me == i && Valid(c.views[i]) && Dominated(c.views[i])
  }

  ghost predicate PacketsOk(c: Cluster) {
    forall p | p in c.net ::
      p.sender in c.views && PacketDominated(p) && p.currentEpoch <= c.views[p.sender].currentEpoch
  }

  lemma ViewsMove(c: Cluster, d: Cluster, i: Id, w: View)
    requires ViewsOk(c) && i in c.views && d.views == c.views[i := w]
    requires w.me == i && Valid(w) && Dominated(w)
    ensures ViewsOk(d)
  {
    forall j | j in d.views ensures d.views[j].me == j && Valid(d.views[j]) && Dominated(d.views[j]) {
      if j != i {
        assert d.views[j] == c.views[j];
      }
    }
  }

  lemma PacketsMove(c: Cluster, d: Cluster, i: Id, w: View)
    requires PacketsOk(c) && i in c.views && d.views == c.views[i := w]
    requires w.me == i && c.views[i].currentEpoch <= w.currentEpoch
    requires forall p | p in d.net ::
      p in c.net || (p.sender == i && PacketDominated(p) && p.currentEpoch <= w.currentEpoch)
    ensures PacketsOk(d)
  {
  }
}
