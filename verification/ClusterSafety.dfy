/** Every run of the cluster keeps the epoch and election invariants; hence at
    most one replica wins an epoch. */
module ClusterSafety {
  import opened ClusterView
  import opened ClusterEffects
  import opened ClusterProtocol
  import opened ClusterElection
  import opened Sets

  ghost predicate EpochsInv(c: Cluster) {
    c.tallies.Keys == c.views.Keys && ViewsOk(c) && PacketsOk(c)
  }

  // ------------------------------------------------------------------
  // Epochs

  /** Node `i` goes to view `w`; packets are lost or sent by `i`. */
  lemma MoveEpochs(c: Cluster, i: Id, w: View, d: Cluster)
    requires EpochsInv(c) && i in c.views
    requires w.me == i && Valid(w) && Dominated(w) && c.views[i].currentEpoch <= w.currentEpoch
    requires d.views == c.views[i := w] && d.tallies.Keys == c.tallies.Keys
    requires forall q | q in d.net ::
      q in c.net || (q.sender == i && PacketDominated(q) && q.currentEpoch <= w.currentEpoch)
    ensures EpochsInv(d)
  {
    ViewsMove(c, d, i, w);
    PacketsMove(c, d, i, w);
  }

  /** What processing a packet does to the epochs, whatever the packet is. */
  lemma ProcessEpochs(v: View, p: Packet, env: Env)
    requires Valid(v) && Dominated(v) && PacketDominated(p)
    ensures
      var r := Process(v, p, env);
      && Valid(r.view) && Dominated(r.view) && Advances(v, r.view)
      && forall q | q in r.sent :: q.sender == v.me && PacketDominated(q) && q.currentEpoch <= r.view.currentEpoch
  {
    ProcessValid(v, p, env);
    if p.sender in v.peers && p.body.AuthRequest? {
      VoteEffects(v, p, env);
    } else if p.sender in v.peers && p.body.AuthAck? {
      CountEffects(v, p, env);
    } else {
      ProcessRoutine(v, p, env);
    }
  }

  lemma DeliverEpochs(c: Cluster, p: Packet, env: Env)
    requires EpochsInv(c) && p in c.net && p.dst in c.views
    ensures EpochsInv(Received(c, p, env))
  {
    hide Valid, Dominated, PacketDominated, Process;
    var r, d := Process(c.views[p.dst], p, env), Received(c, p, env);
    ProcessEpochs(c.views[p.dst], p, env);
    assert forall q | q in d.net :: q in c.net || q in r.sent;
    MoveEpochs(c, p.dst, r.view, d);
  }

  lemma TickEpochs(c: Cluster, i: Id, env: Env)
    requires EpochsInv(c) && i in c.views
    ensures EpochsInv(Ticked(c, i, env))
  {
    hide Valid, Dominated, PacketsOk;
    var v := c.views[i];
    var r, d := Tick(v, env), Ticked(c, i, env);
    TickValid(v, env);
    TickEffects(v, env);
    if Branch(v, env) == Request {
      RequestEffects(v, env);
    }
    assert forall q | q in d.net :: q in c.net || q in r.sent;
    MoveEpochs(c, i, r.view, d);
  }

  lemma SendEpochs(c: Cluster, i: Id, dst: Id, body: Body)
    requires EpochsInv(c) && i in c.views && (body.Ping? || body.Pong? || body.Fail? || body.Other?)
    ensures EpochsInv(c.(net := c.net + multiset{Build(c.views[i], dst, body)}))
  {
    BuildRoutine(c.views[i], dst, body);
    assert c.views == c.views[i := c.views[i]];
    MoveEpochs(c, i, c.views[i], c.(net := c.net + multiset{Build(c.views[i], dst, body)}));
  }

  lemma BumpEpochs(c: Cluster, i: Id)
    requires EpochsInv(c) && i in c.views
    ensures EpochsInv(c.(views := c.views[i := BumpWithoutConsensus(c.views[i])]))
  {
    BumpEffects(c.views[i]);
    var w := BumpWithoutConsensus(c.views[i]);
    MoveEpochs(c, i, w, c.(views := c.views[i := w]));
  }

  lemma LocalEpochs(c: Cluster, i: Id, w: View)
    requires EpochsInv(c) && i in c.views && LocalChange(c.views[i], w)
    ensures EpochsInv(c.(views := c.views[i := w]))
  {
    MoveEpochs(c, i, w, c.(views := c.views[i := w]));
  }

  lemma ForgetEpochs(c: Cluster, i: Id, n: Id, importing: set<nat>)
    requires EpochsInv(c) && i in c.views && n != i
    ensures EpochsInv(c.(views := c.views[i := DelNode(c.views[i], n, importing)]))
  {
    ForgetEffects(c.views[i], n, importing);
    var w := DelNode(c.views[i], n, importing);
    MoveEpochs(c, i, w, c.(views := c.views[i := w]));
  }

  lemma StepEpochs(c: Cluster, s: Step)
    requires EpochsInv(c) && Enabled(c, s)
    ensures EpochsInv(Next(c, s))
  {
    match s {
      case Deliver(p, env) => DeliverEpochs(c, p, env);
      case Lose(p) =>
      case Send(i, dst, body) => SendEpochs(c, i, dst, body);
      case Timer(i, env) => TickEpochs(c, i, env);
      case Bump(i) => BumpEpochs(c, i);
      case Local(i, w) => LocalEpochs(c, i, w);
      case Forget(i, n, importing) => ForgetEpochs(c, i, n, importing);
    }
  }

  lemma {:induction false} RunEpochs(run: seq<Cluster>, steps: seq<Step>, k: nat)
    requires IsRun(run, steps) && k < |run|
    ensures EpochsInv(run[k])
  {
    if k > 0 {
      RunEpochs(run, steps, k - 1);
      StepEpochs(run[k - 1], steps[k - 1]);
    }
  }

  // ------------------------------------------------------------------
  // Elections: each step is one of the kinds that keep `ElectionInv`

  /** Node `i` goes to view `w`, a packet may leave and `sent` is sent, outside any election. */
  lemma QuietStep(c: Cluster, i: Id, w: View, lost: multiset<Packet>, sent: set<Packet>, d: Cluster)
    requires ElectionInv(c) && i in c.views && SameElection(c.views[i], w)
    requires forall q | q in sent :: !Electoral(q)
    requires d == c.(views := c.views[i := w], net := c.net - lost + multiset(sent))
    ensures ElectionInv(d)
  {
    forall q | q in d.net && Electoral(q) ensures q in c.net && d.net[q] <= c.net[q] {
      assert q !in sent;
    }
    QuietInv(c, d);
  }

  lemma GrantStep(c: Cluster, p: Packet, w: View, sent: set<Packet>, d: Cluster)
    requires ElectionInv(c) && p in c.net && p.body.AuthRequest? && p.dst in c.views
    requires w.election == c.views[p.dst].election
    requires c.views[p.dst].lastVoteEpoch < w.lastVoteEpoch == p.currentEpoch
    requires exists ack | ack in sent ::
      && sent == {ack} && ack.body.AuthAck? && ack.sender == p.dst && ack.dst == p.sender
      && ack.currentEpoch == p.currentEpoch && PacketDominated(ack)
    requires d == c.(views := c.views[p.dst := w], net := c.net - multiset{p} + multiset(sent),
                     grants := c.grants + {Grant(p.dst, w.lastVoteEpoch, p.sender)})
    ensures ElectionInv(d)
  {
    var ack :| ack in sent && sent == {ack} && ack.body.AuthAck? && ack.sender == p.dst && ack.dst == p.sender
      && ack.currentEpoch == p.currentEpoch && PacketDominated(ack);
    assert multiset(sent) == multiset{ack};
    VotesInv(c, d, p, w, ack);
  }

  lemma CountStep(c: Cluster, p: Packet, w: View, sent: set<Packet>, d: Cluster)
    requires ElectionInv(c) && p in c.net && p.body.AuthAck? && p.dst in c.views && p.dst in c.tallies
    requires p.currentEpoch >= c.views[p.dst].election.epoch
    requires w.lastVoteEpoch == c.views[p.dst].lastVoteEpoch
    requires w.election == c.views[p.dst].election.(count := c.views[p.dst].election.count + 1) && sent == {}
    requires d == c.(views := c.views[p.dst := w], net := c.net - multiset{p} + multiset(sent),
                     tallies := c.tallies[p.dst := Tallied(c, p)])
    ensures ElectionInv(d)
  {
    assert d.net == c.net - multiset{p};
    CountsInv(c, d, p, w);
  }

  lemma ResetStep(c: Cluster, i: Id, w: View, sent: set<Packet>, d: Cluster)
    requires ElectionInv(c) && i in c.views
    requires w.lastVoteEpoch == c.views[i].lastVoteEpoch
    requires w.election.epoch == c.views[i].election.epoch && w.election.count == 0 && !w.election.sent
    requires forall q | q in sent :: !Electoral(q)
    requires d == c.(views := c.views[i := w], net := c.net + multiset(sent), tallies := c.tallies[i := Tally({}, 0)])
    ensures ElectionInv(d)
  {
    forall q | q in d.net && Electoral(q) ensures q in c.net && d.net[q] <= c.net[q] {
      assert q !in sent;
    }
    ResetsInv(c, d, i, w);
  }

  lemma RequestStep(c: Cluster, i: Id, w: View, sent: set<Packet>, d: Cluster)
    requires ElectionInv(c) && i in c.views
    requires w.lastVoteEpoch == c.views[i].lastVoteEpoch
    requires c.views[i].election.epoch < w.election.epoch
    requires w.election.count == c.views[i].election.count && w.election.sent && !c.views[i].election.sent
    requires forall q | q in sent :: q.body.AuthRequest? && q.sender == i && q.currentEpoch == w.election.epoch
    requires d == c.(views := c.views[i := w], net := c.net + multiset(sent))
    ensures ElectionInv(d)
  {
    forall q | q in d.net && q.body.AuthAck? ensures q in c.net && d.net[q] <= c.net[q] {
      assert q !in sent;
    }
    RequestsKeep(c, d, i, w);
  }

  // ------------------------------------------------------------------
  // Deliveries

  ghost predicate Delivers(c: Cluster, p: Packet) {
    && p in c.net && PacketDominated(p) && p.dst in c.views && p.dst in c.tallies
    && Valid(c.views[p.dst]) && Dominated(c.views[p.dst]) && c.views[p.dst].me == p.dst
  }

  ghost predicate Ticks(c: Cluster, i: Id) {
    i in c.views && i in c.tallies && Valid(c.views[i]) && Dominated(c.views[i]) && c.views[i].me == i
  }

  lemma RoutineElection(c: Cluster, p: Packet, env: Env)
    requires ElectionInv(c) && Delivers(c, p)
    requires !(p.sender in c.views[p.dst].peers && Electoral(p))
    ensures ElectionInv(Received(c, p, env))
  {
    var r := Process(c.views[p.dst], p, env);
    ProcessRoutine(c.views[p.dst], p, env);
    QuietStep(c, p.dst, r.view, multiset{p}, r.sent, Received(c, p, env));
  }

  lemma GrantedElection(c: Cluster, p: Packet, env: Env)
    requires ElectionInv(c) && Delivers(c, p) && Grants(c.views[p.dst], p, env)
    ensures ElectionInv(Received(c, p, env))
  {
    var r := Process(c.views[p.dst], p, env);
    VoteEffects(c.views[p.dst], p, env);
    GrantStep(c, p, r.view, r.sent, Received(c, p, env));
  }

  lemma DeniedElection(c: Cluster, p: Packet, env: Env)
    requires ElectionInv(c) && Delivers(c, p)
    requires p.sender in c.views[p.dst].peers && p.body.AuthRequest? && !Grants(c.views[p.dst], p, env)
    ensures ElectionInv(Received(c, p, env))
  {
    var r := Process(c.views[p.dst], p, env);
    VoteEffects(c.views[p.dst], p, env);
    QuietStep(c, p.dst, r.view, multiset{p}, r.sent, Received(c, p, env));
  }

  lemma CountedElection(c: Cluster, p: Packet, env: Env)
    requires ElectionInv(c) && Delivers(c, p) && CountsVote(c.views[p.dst], p)
    ensures ElectionInv(Received(c, p, env))
  {
    var v := c.views[p.dst];
    var r := Process(v, p, env);
    CountEffects(v, p, env);
    assert r.sent == {} && p.currentEpoch >= v.election.epoch;
    assert r.view.election == v.election.(count := v.election.count + 1);
    CountStep(c, p, r.view, r.sent, Received(c, p, env));
  }

  lemma IgnoredElection(c: Cluster, p: Packet, env: Env)
    requires ElectionInv(c) && Delivers(c, p)
    requires p.sender in c.views[p.dst].peers && p.body.AuthAck? && !CountsVote(c.views[p.dst], p)
    ensures ElectionInv(Received(c, p, env))
  {
    var r := Process(c.views[p.dst], p, env);
    CountEffects(c.views[p.dst], p, env);
    QuietStep(c, p.dst, r.view, multiset{p}, r.sent, Received(c, p, env));
  }

  lemma DeliverElection(c: Cluster, p: Packet, env: Env)
    requires ElectionInv(c) && Delivers(c, p)
    ensures ElectionInv(Received(c, p, env))
  {
    if !(p.sender in c.views[p.dst].peers && Electoral(p)) {
      RoutineElection(c, p, env);
    } else if p.body.AuthAck? {
      if CountsVote(c.views[p.dst], p) {
        CountedElection(c, p, env);
      } else {
        IgnoredElection(c, p, env);
      }
    } else if Grants(c.views[p.dst], p, env) {
      GrantedElection(c, p, env);
    } else {
      DeniedElection(c, p, env);
    }
  }

  // ------------------------------------------------------------------
  // Timers and the other steps

  lemma IdleElection(c: Cluster, i: Id, env: Env)
    requires ElectionInv(c) && Ticks(c, i) && Branch(c.views[i], env) == Idle
    ensures ElectionInv(Ticked(c, i, env))
  {
    var r := Tick(c.views[i], env);
    TickEffects(c.views[i], env);
    assert c.net - multiset{} == c.net;
    QuietStep(c, i, r.view, multiset{}, r.sent, Ticked(c, i, env));
  }

  lemma ResetTick(c: Cluster, i: Id, env: Env)
    requires ElectionInv(c) && Ticks(c, i) && Branch(c.views[i], env) == Reset
    ensures ElectionInv(Ticked(c, i, env))
  {
    var r := Tick(c.views[i], env);
    TickEffects(c.views[i], env);
    ResetStep(c, i, r.view, r.sent, Ticked(c, i, env));
  }

  lemma RequestTick(c: Cluster, i: Id, env: Env)
    requires ElectionInv(c) && Ticks(c, i) && Branch(c.views[i], env) == Request
    ensures ElectionInv(Ticked(c, i, env))
  {
    var r := Tick(c.views[i], env);
    RequestEffects(c.views[i], env);
    RequestStep(c, i, r.view, r.sent, Ticked(c, i, env));
  }

  lemma WinTick(c: Cluster, i: Id, env: Env)
    requires ElectionInv(c) && Ticks(c, i) && Branch(c.views[i], env) == Win
    ensures ElectionInv(Ticked(c, i, env))
  {
    var r, d := Tick(c.views[i], env), Ticked(c, i, env);
    TickEffects(c.views[i], env);
    WinInv(c, i);
    assert c.net - multiset{} == c.net;
    QuietStep(c.(wins := d.wins), i, r.view, multiset{}, r.sent, d);
  }

  lemma TickElection(c: Cluster, i: Id, env: Env)
    requires ElectionInv(c) && Ticks(c, i)
    ensures ElectionInv(Ticked(c, i, env))
  {
    match Branch(c.views[i], env) {
      case Idle => IdleElection(c, i, env);
      case Reset => ResetTick(c, i, env);
      case Request => RequestTick(c, i, env);
      case Win => WinTick(c, i, env);
    }
  }

  lemma SendElection(c: Cluster, i: Id, p: Packet)
    requires ElectionInv(c) && i in c.views && !Electoral(p)
    ensures ElectionInv(c.(net := c.net + multiset{p}))
  {
    assert c.views == c.views[i := c.views[i]] && multiset({p}) == multiset{p} && c.net - multiset{} == c.net;
    QuietStep(c, i, c.views[i], multiset{}, {p}, c.(net := c.net + multiset{p}));
  }

  lemma LocalElection(c: Cluster, i: Id, w: View)
    requires ElectionInv(c) && i in c.views && SameElection(c.views[i], w)
    ensures ElectionInv(c.(views := c.views[i := w]))
  {
    assert c.net - multiset{} + multiset({}) == c.net;
    QuietStep(c, i, w, multiset{}, {}, c.(views := c.views[i := w]));
  }

  lemma LoseElection(c: Cluster, p: Packet)
    requires ElectionInv(c)
    ensures ElectionInv(c.(net := c.net - multiset{p}))
  {
    QuietInv(c, c.(net := c.net - multiset{p}));
  }

  lemma StepReady(c: Cluster, s: Step)
    requires EpochsInv(c) && Enabled(c, s)
    ensures s.Deliver? ==> Delivers(c, s.p)
    ensures s.Timer? ==> Ticks(c, s.i)
    ensures s.Bump? ==> SameElection(c.views[s.i], BumpWithoutConsensus(c.views[s.i]))
  {
  }

  lemma StepElection(c: Cluster, s: Step)
    requires NodesOk(c) && ElectionInv(c) && Enabled(c, s)
    requires s.Deliver? ==> Delivers(c, s.p)
    requires s.Timer? ==> Ticks(c, s.i)
    requires s.Bump? ==> SameElection(c.views[s.i], BumpWithoutConsensus(c.views[s.i]))
    ensures ElectionInv(Next(c, s))
  {
    hide ElectionInv, Delivers, Ticks, Received, Ticked, BumpWithoutConsensus;
    match s {
      case Deliver(p, env) => DeliverElection(c, p, env);
      case Lose(p) => LoseElection(c, p);
      case Send(i, dst, body) => SendElection(c, i, Build(c.views[i], dst, body));
      case Timer(i, env) => TickElection(c, i, env);
      case Bump(i) => LocalElection(c, i, BumpWithoutConsensus(c.views[i]));
      case Local(i, w) => LocalElection(c, i, w);
      case Forget(i, n, importing) =>
        ForgetEffects(c.views[i], n, importing);
        LocalElection(c, i, DelNode(c.views[i], n, importing));
    }
  }

  lemma NextElection(c: Cluster, s: Step, d: Cluster)
    requires EpochsInv(c) && ElectionInv(c) && Enabled(c, s) && d == Next(c, s)
    ensures ElectionInv(d)
  {
    StepReady(c, s);
    StepElection(c, s);
  }

  lemma {:induction false} RunElection(run: seq<Cluster>, steps: seq<Step>, k: nat)
    requires IsRun(run, steps) && k < |run|
    ensures ElectionInv(run[k])
  {
    hide ElectionInv, EpochsInv, IsStep, Init;
    if k == 0 {
      InitElection(run[0]);
    } else {
      RunElection(run, steps, k - 1);
      RunEpochs(run, steps, k - 1);
      assert IsStep(run[k - 1], steps[k - 1], run[k]);
      StepKeepsElection(run[k - 1], steps[k - 1], run[k]);
    }
  }

  lemma InitElection(c: Cluster)
    requires Init(c)
    ensures ElectionInv(c)
  {
  }

  lemma StepKeepsElection(c: Cluster, s: Step, d: Cluster)
    requires EpochsInv(c) && ElectionInv(c) && IsStep(c, s, d)
    ensures ElectionInv(d)
  {
    hide ElectionInv, EpochsInv, Next, Enabled;
    NextElection(c, s, d);
  }

  // ------------------------------------------------------------------
  // Main results

  lemma Majorities<T>(a: set<T>, b: set<T>, all: set<T>)
    requires a <= all && b <= all && a !! b
    ensures |a| + |b| <= |all|
  {
    assert a <= all - b;
    SubsetSize(a, all - b);
    assert |all - b| == |all| - |b|;
  }

  /** Two winners of one epoch, in clusters of at least the nodes `voters`, among
      which are all the nodes that voted in the epoch. */
  ghost predicate Rivals(c: Cluster, a: Victory, b: Victory, voters: set<Id>) {
    && a in c.wins && b in c.wins && a.epoch == b.epoch
    && (forall g | g in c.grants && g.epoch == a.epoch :: g.voter in voters)
    && |voters| <= a.size && |voters| <= b.size
  }

  /** At most one replica wins an epoch, in every run: two winners whose counts hold
      no stale vote are one. */
  lemma ElectionSafety(run: seq<Cluster>, steps: seq<Step>, k: nat, a: Victory, b: Victory, voters: set<Id>)
    requires IsRun(run, steps) && k < |run| && Rivals(run[k], a, b, voters)
    requires a.tally.stale == 0 && b.tally.stale == 0
    ensures a.candidate == b.candidate
  {
    RunElection(run, steps, k);
    var c := run[k];
    if a.candidate != b.candidate {
      forall n | n in a.tally.voters ensures n in voters && n !in b.tally.voters {
        assert Grant(n, a.epoch, a.candidate) in c.grants;
        assert n in b.tally.voters ==> Grant(n, b.epoch, b.candidate) in c.grants;
      }
      forall n | n in b.tally.voters ensures n in voters {
        assert Grant(n, b.epoch, b.candidate) in c.grants;
      }
      Majorities(a.tally.voters, b.tally.voters, voters);
    }
  }

  /** The count a candidate compares with the quorum is exactly the number of
      voters that granted it this election, if and only if no vote was counted
      between the reset of the count and the request. */
  lemma CountIsExact(run: seq<Cluster>, steps: seq<Step>, k: nat, i: Id)
    requires IsRun(run, steps) && k < |run| && i in run[k].views
    ensures i in run[k].tallies
    ensures forall n | n in run[k].tallies[i].voters :: Grant(n, run[k].views[i].election.epoch, i) in run[k].grants
    ensures run[k].views[i].election.count == |run[k].tallies[i].voters| <==> run[k].tallies[i].stale == 0
  {
    RunElection(run, steps, k);
    assert TallyInv(run[k], i);
  }

  /** No node votes twice in an epoch. */
  lemma OneVotePerEpoch(run: seq<Cluster>, steps: seq<Step>, k: nat, g: Grant, h: Grant)
    requires IsRun(run, steps) && k < |run|
    requires g in run[k].grants && h in run[k].grants && g.voter == h.voter && g.epoch == h.epoch
    ensures g.candidate == h.candidate
  {
    RunElection(run, steps, k);
  }

  /** Epoch dominance, in every run. */
  lemma EpochDominance(run: seq<Cluster>, steps: seq<Step>, k: nat)
    requires IsRun(run, steps) && k < |run|
    ensures forall i, n | i in run[k].views && n in run[k].views[i].peers ::
      run[k].views[i].peers[n].configEpoch <= run[k].views[i].currentEpoch
    ensures forall i | i in run[k].views ::
      && run[k].views[i].lastVoteEpoch <= run[k].views[i].currentEpoch
      && run[k].views[i].election.epoch <= run[k].views[i].currentEpoch
    ensures forall p | p in run[k].net ::
      && p.configEpoch <= p.currentEpoch
      && (p.body.Update? ==> p.body.epoch <= p.currentEpoch)
      && p.sender in run[k].views && p.currentEpoch <= run[k].views[p.sender].currentEpoch
  {
    RunEpochs(run, steps, k);
    forall i | i in run[k].views ensures Dominated(run[k].views[i]) {
    }
  }

  /** No vote is counted by a node that has not asked since its last reset. */
  ghost predicate NoEarlyVotes(run: seq<Cluster>, steps: seq<Step>)
    requires IsRun(run, steps)
  {
    forall k {:trigger steps[k]} | 0 <= k < |steps| && steps[k].Deliver? ::
      var p, c := steps[k].p, run[k];
      CountsVote(c.views[p.dst], p) ==> c.views[p.dst].election.sent
  }

  ghost predicate NoStale(c: Cluster) {
    && (forall i | i in c.tallies :: c.tallies[i].stale == 0)
    && (forall w | w in c.wins :: w.tally.stale == 0)
  }

  lemma StepNoStale(c: Cluster, s: Step, d: Cluster)
    requires NoStale(c) && IsStep(c, s, d)
    requires s.Deliver? && CountsVote(c.views[s.p.dst], s.p) ==> c.views[s.p.dst].election.sent
    ensures NoStale(d)
  {
  }

  lemma {:induction false} RunNoStale(run: seq<Cluster>, steps: seq<Step>, k: nat)
    requires IsRun(run, steps) && NoEarlyVotes(run, steps) && k < |run|
    ensures NoStale(run[k])
  {
    hide Next, Enabled, Valid, Dominated;
    if k > 0 {
      RunNoStale(run, steps, k - 1);
      assert IsStep(run[k - 1], steps[k - 1], run[k]);
      StepNoStale(run[k - 1], steps[k - 1], run[k]);
    }
  }

  /** Election safety in the runs that deliver no vote between a reset and the next request. */
  lemma OneWinnerPerEpoch(run: seq<Cluster>, steps: seq<Step>, k: nat, a: Victory, b: Victory, voters: set<Id>)
    requires IsRun(run, steps) && NoEarlyVotes(run, steps) && k < |run| && Rivals(run[k], a, b, voters)
    ensures a.candidate == b.candidate
  {
    RunNoStale(run, steps, k);
    ElectionSafety(run, steps, k, a, b, voters);
  }

  /** A master that owns slots, the only kind of node that votes. */
  ghost predicate VotingMaster(v: View) {
    v.me in v.peers && Me(v).master && SlotsOf(v, v.me) != {}
  }

  /** In election `epoch` only masters of `voters` are asked, and who counts its votes knows at least as many. */
  ghost predicate AgreedVoters(c: Cluster, s: Step, epoch: nat, voters: set<Id>)
    requires Enabled(c, s)
  {
    match s
    case Deliver(p, _) => p.currentEpoch == epoch && VotingMaster(c.views[p.dst]) ==> p.dst in voters
    case Timer(i, _) => c.views[i].election.epoch == epoch ==> |voters| <= c.views[i].size
    case _ => true
  }

  ghost predicate AlwaysAgreed(run: seq<Cluster>, steps: seq<Step>, epoch: nat, voters: set<Id>)
    requires IsRun(run, steps)
  {
    forall k {:trigger steps[k]} | 0 <= k < |steps| :: AgreedVoters(run[k], steps[k], epoch, voters)
  }

  ghost predicate Electorate(c: Cluster, epoch: nat, voters: set<Id>) {
    && (forall g | g in c.grants && g.epoch == epoch :: g.voter in voters)
    && (forall w | w in c.wins && w.epoch == epoch :: |voters| <= w.size)
  }

  /** Only a master that owns slots votes, and its vote is recorded for the epoch it was asked in. */
  lemma GrantsNeedMaster(v: View, p: Packet, env: Env)
    requires Valid(v) && Dominated(v) && PacketDominated(p) && Grants(v, p, env)
    ensures VotingMaster(v) && Process(v, p, env).view.lastVoteEpoch == p.currentEpoch
  {
    VoteEffects(v, p, env);
    assert SlotsOf(TakeHeader(v, p), v.me) == SlotsOf(v, v.me);
  }

  lemma StepElectorate(c: Cluster, s: Step, d: Cluster, epoch: nat, voters: set<Id>)
    requires IsStep(c, s, d) && EpochsInv(c) && AgreedVoters(c, s, epoch, voters) && Electorate(c, epoch, voters)
    ensures Electorate(d, epoch, voters)
  {
    hide Process, Tick, Valid, Dominated, PacketDominated, VotingMaster, CountsVote, Branch, Grants;
    if s.Deliver? && Grants(c.views[s.p.dst], s.p, s.env) {
      GrantsNeedMaster(c.views[s.p.dst], s.p, s.env);
    }
  }

  lemma {:induction false} RunElectorate(run: seq<Cluster>, steps: seq<Step>, k: nat, epoch: nat, voters: set<Id>)
    requires IsRun(run, steps) && AlwaysAgreed(run, steps, epoch, voters) && k < |run|
    ensures Electorate(run[k], epoch, voters)
  {
    hide Next, Enabled, Valid, Dominated, AgreedVoters;
    if k > 0 {
      RunElectorate(run, steps, k - 1, epoch, voters);
      RunEpochs(run, steps, k - 1);
      assert IsStep(run[k - 1], steps[k - 1], run[k]);
      StepElectorate(run[k - 1], steps[k - 1], run[k], epoch, voters);
    }
  }

  /** With an agreed set of voting masters and no vote delivered between a reset and the next request, the
      replicas that pass the quorum test of an epoch are one. */
  lemma AtMostOneWinner(
    run: seq<Cluster>, steps: seq<Step>, k: nat, epoch: nat, voters: set<Id>, a: Victory, b: Victory)
    requires IsRun(run, steps) && NoEarlyVotes(run, steps) && AlwaysAgreed(run, steps, epoch, voters) && k < |run|
    requires a in run[k].wins && b in run[k].wins && a.epoch == epoch && b.epoch == epoch
    ensures a.candidate == b.candidate
  {
    RunElectorate(run, steps, k, epoch, voters);
    OneWinnerPerEpoch(run, steps, k, a, b, voters);
  }

  // ------------------------------------------------------------------
  // Epochs only grow

  lemma DeliverAdvances(v: View, p: Packet, env: Env)
    requires Valid(v) && Dominated(v) && PacketDominated(p)
    ensures Advances(v, Process(v, p, env).view)
  {
    ProcessEpochs(v, p, env);
  }

  lemma BumpAdvances(v: View)
    requires Valid(v) && Dominated(v)
    ensures Advances(v, BumpWithoutConsensus(v))
  {
    BumpEffects(v);
  }

  /** This step makes node `i` forget node `n`. */
  predicate Forgets(s: Step, i: Id, n: Id) {
    s.Forget? && s.i == i && s.n == n
  }

  lemma StepAdvances(c: Cluster, s: Step, d: Cluster, i: Id, n: Id)
    requires i in c.views && Valid(c.views[i]) && Dominated(c.views[i]) && IsStep(c, s, d)
    requires s.Deliver? ==> PacketDominated(s.p)
    ensures i in d.views && d.views[i].me == c.views[i].me && c.views[i].currentEpoch <= d.views[i].currentEpoch
    ensures !Forgets(s, i, n) ==> AdvancesFor(c.views[i], d.views[i], n)
  {
    hide Process, Tick, DelNode, BumpWithoutConsensus, Valid, Dominated, PacketDominated;
    var v := c.views[i];
    if s.Deliver? && s.p.dst == i {
      DeliverAdvances(v, s.p, s.env);
    } else if s.Timer? && s.i == i {
      TickEffects(v, s.env);
    } else if s.Bump? && s.i == i {
      BumpAdvances(v);
    } else if s.Forget? && s.i == i {
      ForgetEffects(v, s.n, s.importing);
    }
  }

  lemma RunStepAdvances(run: seq<Cluster>, steps: seq<Step>, k: nat, i: Id, n: Id)
    requires IsRun(run, steps) && k < |steps| && i in run[k].views
    ensures i in run[k + 1].views && run[k + 1].views[i].me == run[k].views[i].me
    ensures run[k].views[i].currentEpoch <= run[k + 1].views[i].currentEpoch
    ensures !Forgets(steps[k], i, n) ==> AdvancesFor(run[k].views[i], run[k + 1].views[i], n)
  {
    RunEpochs(run, steps, k);
    assert IsStep(run[k], steps[k], run[k + 1]);
    StepAdvances(run[k], steps[k], run[k + 1], i, n);
  }

  ghost predicate NeverForgets(steps: seq<Step>, j: nat, k: nat, i: Id, n: Id)
    requires j <= k <= |steps|
  {
    forall m {:trigger steps[m]} | j <= m < k :: !Forgets(steps[m], i, n)
  }

  /** Along every run no node's current epoch goes back, and neither does the epoch it knows of a node as long as
      it is not told to forget that node. */
  lemma {:induction false} EpochsNeverGoBack(run: seq<Cluster>, steps: seq<Step>, j: nat, k: nat, i: Id, n: Id)
    requires IsRun(run, steps) && j <= k < |run| && i in run[j].views
    ensures i in run[k].views && run[j].views[i].currentEpoch <= run[k].views[i].currentEpoch
    ensures NeverForgets(steps, j, k, i, n) ==> AdvancesFor(run[j].views[i], run[k].views[i], n)
  {
    hide IsStep, Init;
    if j < k {
      EpochsNeverGoBack(run, steps, j, k - 1, i, n);
      RunStepAdvances(run, steps, k - 1, i, n);
      if NeverForgets(steps, j, k, i, n) {
        assert !Forgets(steps[k - 1], i, n);
      }
    }
  }
}
