/** A vote that arrives after a candidate reset its count and before it asks for
    votes again is counted for the next election. One such vote is enough for two
    replicas to win the same epoch, as the run built here shows: node 1 is the only
    master, nodes 4 and 5 are its replicas, and both fail over by hand. */
module ClusterStaleVote {
  import opened Options
  import opened ClusterView
  import opened ClusterEffects
  import opened ClusterProtocol
  import opened ClusterSafety

  const VOTER: Id := 1
  const EARLY: Id := 4
  const LATE: Id := 5

  function At(now: int): Env {
    Env(now, 0, true, false, false, false, 0, 0, false)
  }

  /** A replica of the voter that may fail over. */
  ghost predicate Candidate(v: View, epoch: nat, e: Election) {
    && Valid(v) && v.currentEpoch == epoch && v.election == e && v.size == 1 && v.mfEnd && v.mfCanStart
    && !Me(v).master && Me(v).slaveof == Some(VOTER)
    && VOTER in v.peers && v.peers[VOTER].master && v.owner[0] == Some(VOTER) && v.me != VOTER
  }

  ghost predicate Voter(v: View, epoch: nat, lastVote: nat) {
    && Valid(v) && v.me == VOTER && v.currentEpoch == epoch && v.lastVoteEpoch == lastVote
    && Me(v).master && v.owner[0] == Some(VOTER) && v.peers[VOTER].votedTime == 0
    && (forall n | n in {EARLY, LATE} :: n in v.peers && !v.peers[n].master && v.peers[n].slaveof == Some(VOTER))
    && (forall j | 0 <= j < CLUSTER_SLOTS :: v.owner[j] == Some(VOTER))
    && v.peers[VOTER].configEpoch == 0
  }

  // ------------------------------------------------------------------
  // What single nodes do

  lemma AsksForVotes(v: View, epoch: nat, e: Election, now: int)
    requires Candidate(v, epoch, e) && !e.sent && e.time <= now <= e.time + 2000
    ensures Branch(v, At(now)) == Request
    ensures Candidate(Tick(v, At(now)).view, epoch + 1, e.(epoch := epoch + 1, sent := true))
    ensures exists p | p in Tick(v, At(now)).sent :: IsRequest(p, v.me, epoch + 1)
  {
    assert 0 in SlotsOf(v, VOTER);
    var p := Build(Tick(v, At(now)).view, VOTER, AuthRequest(true));
    assert p in Tick(v, At(now)).sent;
  }

  lemma StartsOver(v: View, epoch: nat, e: Election, now: int)
    requires Candidate(v, epoch, e) && now > e.time + 4000
    ensures Branch(v, At(now)) == Reset
    ensures Candidate(Tick(v, At(now)).view, epoch, e.(count := 0, sent := false, time := now))
  {
    assert 0 in SlotsOf(v, VOTER);
  }

  lemma WinsElection(v: View, epoch: nat, e: Election, now: int)
    requires Candidate(v, epoch, e) && e.sent && e.time <= now <= e.time + 2000 && e.count == 1
    ensures Branch(v, At(now)) == Win
  {
    assert 0 in SlotsOf(v, VOTER);
  }

  lemma GivesVote(v: View, epoch: nat, lastVote: nat, p: Packet)
    requires Voter(v, epoch, lastVote) && IsRequest(p, p.sender, p.currentEpoch) && p.sender in {EARLY, LATE}
    requires epoch <= p.currentEpoch && lastVote < p.currentEpoch
    ensures Grants(v, p, At(0))
    ensures Voter(Process(v, p, At(0)).view, p.currentEpoch, p.currentEpoch)
    ensures exists q | q in Process(v, p, At(0)).sent :: IsAck(q, p.sender, p.currentEpoch)
  {
    HeaderValid(v, p);
    var v1 := TakeHeader(v, p);
    assert 0 in SlotsOf(v1, VOTER);
    VoteValid(v1, p, At(0));
    var q := Build(Process(v, p, At(0)).view, p.sender, AuthAck);
    assert q in Process(v, p, At(0)).sent;
  }

  lemma CountsAck(v: View, epoch: nat, e: Election, p: Packet)
    requires Candidate(v, epoch, e) && IsAck(p, v.me, p.currentEpoch)
    requires e.epoch <= p.currentEpoch <= epoch
    ensures CountsVote(v, p)
    ensures Candidate(Process(v, p, At(0)).view, epoch, e.(count := e.count + 1))
  {
    HeaderValid(v, p);
    assert 0 in SlotsOf(TakeHeader(v, p), VOTER);
  }

  ghost predicate IsRequest(p: Packet, from: Id, epoch: nat) {
    p.dst == VOTER && p.sender == from && p.currentEpoch == epoch && p.body == AuthRequest(true)
  }

  ghost predicate IsAck(p: Packet, to: Id, epoch: nat) {
    p.dst == to && p.sender == VOTER && p.currentEpoch == epoch && p.body == AuthAck
  }

  // ------------------------------------------------------------------
  // What the cluster does

  /** The three nodes are there and only node 1 has voted. */
  ghost predicate World(c: Cluster) {
    && EpochsInv(c) && VOTER in c.views && EARLY in c.views && LATE in c.views
    && forall g | g in c.grants :: g.voter == VOTER
  }

  /** Nothing but node `i` and its tally changes, and no packet but `lost` leaves. */
  ghost predicate OnlyMoves(c: Cluster, d: Cluster, i: Id, lost: multiset<Packet>) {
    && c.wins <= d.wins
    && (forall n | n in c.views && n != i :: n in d.views && d.views[n] == c.views[n])
    && (forall n | n in c.tallies && n != i :: n in d.tallies && d.tallies[n] == c.tallies[n])
    && (forall p | p in c.net && p !in lost :: p in d.net)
  }

  lemma Extend(run: seq<Cluster>, steps: seq<Step>, c: Cluster, s: Step, d: Cluster)
    requires IsRun(run, steps) && run[|run| - 1] == c && IsStep(c, s, d)
    ensures IsRun(run + [d], steps + [s])
  {
    forall k | 0 <= k < |steps + [s]|
      ensures IsStep((run + [d])[k], (steps + [s])[k], (run + [d])[k + 1])
    {
      if k < |steps| {
        assert IsStep(run[k], steps[k], run[k + 1]);
      }
    }
  }

  /** Some run ends in `c`. */
  ghost predicate Reach(c: Cluster) {
    exists run, steps :: IsRun(run, steps) && run[|run| - 1] == c
  }

  lemma ReachNext(c: Cluster, s: Step, d: Cluster)
    requires Reach(c) && IsStep(c, s, d)
    ensures Reach(d)
  {
    var run, steps :| IsRun(run, steps) && run[|run| - 1] == c;
    Extend(run, steps, c, s, d);
    assert (run + [d])[|run + [d]| - 1] == d;
  }

  lemma TimerReach(c: Cluster, i: Id, now: int)
    requires Reach(c) && World(c) && i in c.views
    ensures World(Ticked(c, i, At(now))) && Reach(Ticked(c, i, At(now)))
  {
    hide Tick, Branch, Valid, PacketsOk, Dominated;
    TickEpochs(c, i, At(now));
    ReachNext(c, Timer(i, At(now)), Ticked(c, i, At(now)));
  }

  lemma DeliverWorld(c: Cluster, p: Packet)
    requires World(c) && p in c.net && p.dst in c.views && (p.dst == VOTER || p.body.AuthAck?)
    ensures World(Received(c, p, At(0)))
  {
    hide Process, Valid, ViewsOk, PacketsOk, CanVote, TakeHeader, CountsVote, Tallied;
    DeliverEpochs(c, p, At(0));
  }

  lemma DeliverReach(c: Cluster, p: Packet)
    requires Reach(c) && World(c) && p in c.net && p.dst in c.views && (p.body.AuthRequest? || p.body.AuthAck?)
    ensures Reach(Received(c, p, At(0)))
  {
    hide Received, Valid, Reach, PacketsOk, Dominated;
    ReachNext(c, Deliver(p, At(0)), Received(c, p, At(0)));
  }

  // ------------------------------------------------------------------
  // The run, one step at a time

  ghost predicate HasCandidate(c: Cluster, i: Id, epoch: nat, e: Election, t: Tally) {
    i in c.views && i in c.tallies && c.views[i].me == i && Candidate(c.views[i], epoch, e) && c.tallies[i] == t
  }

  ghost predicate HasVoter(c: Cluster, epoch: nat, lastVote: nat) {
    VOTER in c.views && VOTER in c.tallies && Voter(c.views[VOTER], epoch, lastVote)
  }

  lemma TimerMoves(c: Cluster, i: Id, now: int)
    requires i in c.views && i in c.tallies && Valid(c.views[i])
    ensures OnlyMoves(c, Ticked(c, i, At(now)), i, multiset{})
  {
  }

  lemma DeliverMoves(c: Cluster, p: Packet)
    requires p in c.net && p.dst in c.views && p.dst in c.tallies && Valid(c.views[p.dst])
    ensures OnlyMoves(c, Received(c, p, At(0)), p.dst, multiset{p})
  {
    assert forall q | q in c.net && q != p :: c.net[q] == (c.net - multiset{p})[q];
  }

  lemma AskStep(c: Cluster, i: Id, epoch: nat, e: Election, t: Tally, now: int) returns (p: Packet)
    requires HasCandidate(c, i, epoch, e, t) && !e.sent && e.time <= now <= e.time + 2000
    ensures HasCandidate(Ticked(c, i, At(now)), i, epoch + 1, e.(epoch := epoch + 1, sent := true), t)
    ensures p in Ticked(c, i, At(now)).net && IsRequest(p, i, epoch + 1)
  {
    AsksForVotes(c.views[i], epoch, e, now);
    p :| p in Tick(c.views[i], At(now)).sent && IsRequest(p, i, epoch + 1);
  }

  lemma RestartStep(c: Cluster, i: Id, epoch: nat, e: Election, t: Tally, now: int)
    requires HasCandidate(c, i, epoch, e, t) && now > e.time + 4000
    ensures HasCandidate(Ticked(c, i, At(now)), i, epoch, e.(count := 0, sent := false, time := now), Tally({}, 0))
  {
    StartsOver(c.views[i], epoch, e, now);
  }

  lemma WinStep(c: Cluster, i: Id, epoch: nat, e: Election, t: Tally, now: int)
    requires HasCandidate(c, i, epoch, e, t)
    requires e.sent && e.time <= now <= e.time + 2000 && e.count == 1
    ensures Victory(i, e.epoch, 1, t) in Ticked(c, i, At(now)).wins
  {
    WinsElection(c.views[i], epoch, e, now);
  }

  lemma VoteStep(c: Cluster, epoch: nat, lastVote: nat, p: Packet) returns (q: Packet)
    requires HasVoter(c, epoch, lastVote)
    requires p in c.net && IsRequest(p, p.sender, p.currentEpoch) && p.sender in {EARLY, LATE}
    requires epoch <= p.currentEpoch && lastVote < p.currentEpoch
    ensures HasVoter(Received(c, p, At(0)), p.currentEpoch, p.currentEpoch)
    ensures q in Received(c, p, At(0)).net && IsAck(q, p.sender, p.currentEpoch)
  {
    GivesVote(c.views[VOTER], epoch, lastVote, p);
    q :| q in Process(c.views[VOTER], p, At(0)).sent && IsAck(q, p.sender, p.currentEpoch);
  }

  lemma AckStep(c: Cluster, i: Id, epoch: nat, e: Election, t: Tally, p: Packet)
    requires HasCandidate(c, i, epoch, e, t)
    requires p in c.net && IsAck(p, i, p.currentEpoch) && e.epoch <= p.currentEpoch <= epoch
    ensures HasCandidate(Received(c, p, At(0)), i, epoch, e.(count := e.count + 1),
              if e.sent then t.(voters := t.voters + {VOTER}) else t.(stale := t.stale + 1))
  {
    CountsAck(c.views[i], epoch, e, p);
  }

  const IDLE: Election := Election(0, 0, false, 0)
  const EMPTY: Tally := Tally({}, 0)

  /** What is left of the world for the late candidate. */
  ghost predicate LateReady(c: Cluster, epoch: nat) {
    Reach(c) && World(c) && HasVoter(c, epoch, epoch) && HasCandidate(c, LATE, 1, IDLE, EMPTY)
  }

  /** Asked, voted for, and waiting for the vote of epoch 1. */
  lemma EarlyAsks(c: Cluster) returns (d: Cluster, ack: Packet)
    requires LateReady(c, 0) && HasCandidate(c, EARLY, 0, IDLE, EMPTY)
    ensures LateReady(d, 1) && HasCandidate(d, EARLY, 1, Election(1, 0, true, 0), EMPTY)
    ensures ack in d.net && IsAck(ack, EARLY, 1)
  {
    var c1 := Ticked(c, EARLY, At(0));
    var p := AskStep(c, EARLY, 0, IDLE, EMPTY, 0);
    TimerReach(c, EARLY, 0);
    TimerMoves(c, EARLY, 0);
    d := Received(c1, p, At(0));
    ack := VoteStep(c1, 0, 0, p);
    DeliverReach(c1, p);
    DeliverWorld(c1, p);
    DeliverMoves(c1, p);
  }

  /** The count is reset and the vote of epoch 1 arrives. */
  lemma EarlyRestarts(c: Cluster, ack: Packet) returns (d: Cluster)
    requires LateReady(c, 1) && HasCandidate(c, EARLY, 1, Election(1, 0, true, 0), EMPTY)
    requires ack in c.net && IsAck(ack, EARLY, 1)
    ensures LateReady(d, 1) && HasCandidate(d, EARLY, 1, Election(1, 0, false, 5000), EMPTY) && ack in d.net
  {
    d := Ticked(c, EARLY, At(5000));
    RestartStep(c, EARLY, 1, Election(1, 0, true, 0), EMPTY, 5000);
    TimerReach(c, EARLY, 5000);
    TimerMoves(c, EARLY, 5000);
  }

  lemma EarlyCounts(c: Cluster, ack: Packet) returns (d: Cluster)
    requires LateReady(c, 1) && HasCandidate(c, EARLY, 1, Election(1, 0, false, 5000), EMPTY)
    requires ack in c.net && IsAck(ack, EARLY, 1)
    ensures LateReady(d, 1) && HasCandidate(d, EARLY, 1, Election(1, 1, false, 5000), Tally({}, 1))
  {
    hide Received, Reach, Voter, PacketsOk, Dominated, SlotsOf;
    d := Received(c, ack, At(0));
    AckStep(c, EARLY, 1, Election(1, 0, false, 5000), EMPTY, ack);
    DeliverReach(c, ack);
    DeliverWorld(c, ack);
    DeliverMoves(c, ack);
  }

  lemma EarlyRetries(c: Cluster) returns (d: Cluster)
    requires LateReady(c, 1) && HasCandidate(c, EARLY, 1, Election(1, 1, false, 5000), Tally({}, 1))
    ensures LateReady(d, 1) && HasCandidate(d, EARLY, 2, Election(2, 1, true, 5000), Tally({}, 1))
  {
    d := Ticked(c, EARLY, At(5000));
    var p := AskStep(c, EARLY, 1, Election(1, 1, false, 5000), Tally({}, 1), 5000);
    TimerReach(c, EARLY, 5000);
    TimerMoves(c, EARLY, 5000);
  }

  lemma EarlyWins(c: Cluster) returns (d: Cluster)
    requires LateReady(c, 1) && HasCandidate(c, EARLY, 2, Election(2, 1, true, 5000), Tally({}, 1))
    ensures LateReady(d, 1) && Victory(EARLY, 2, 1, Tally({}, 1)) in d.wins
  {
    d := Ticked(c, EARLY, At(5000));
    WinStep(c, EARLY, 2, Election(2, 1, true, 5000), Tally({}, 1), 5000);
    TimerReach(c, EARLY, 5000);
    TimerMoves(c, EARLY, 5000);
  }

  lemma LateAsks(c: Cluster) returns (d: Cluster, ack: Packet)
    requires LateReady(c, 1)
    ensures Reach(d) && World(d) && c.wins <= d.wins
    ensures HasCandidate(d, LATE, 2, Election(2, 0, true, 0), EMPTY)
    ensures ack in d.net && IsAck(ack, LATE, 2)
  {
    var c1 := Ticked(c, LATE, At(0));
    var p := AskStep(c, LATE, 1, IDLE, EMPTY, 0);
    TimerReach(c, LATE, 0);
    TimerMoves(c, LATE, 0);
    d := Received(c1, p, At(0));
    ack := VoteStep(c1, 1, 1, p);
    DeliverReach(c1, p);
    DeliverWorld(c1, p);
    DeliverMoves(c1, p);
  }

  lemma LateWins(c: Cluster, ack: Packet) returns (d: Cluster)
    requires Reach(c) && World(c) && HasCandidate(c, LATE, 2, Election(2, 0, true, 0), EMPTY)
    requires ack in c.net && IsAck(ack, LATE, 2)
    ensures Reach(d) && World(d) && c.wins <= d.wins && Victory(LATE, 2, 1, Tally({VOTER}, 0)) in d.wins
  {
    var c1 := Received(c, ack, At(0));
    AckStep(c, LATE, 2, Election(2, 0, true, 0), EMPTY, ack);
    assert EMPTY.voters + {VOTER} == {VOTER};
    DeliverReach(c, ack);
    DeliverWorld(c, ack);
    DeliverMoves(c, ack);
    d := Ticked(c1, LATE, At(0));
    WinStep(c1, LATE, 2, Election(2, 1, true, 0), Tally({VOTER}, 0), 0);
    TimerReach(c1, LATE, 0);
    TimerMoves(c1, LATE, 0);
  }

  function StartView(me: Id, epoch: nat): View {
    var replica := Peer(0, false, Some(VOTER), false, 0);
    View(me, epoch, 0, map[VOTER := Peer(0, true, None, false, 0), EARLY := replica, LATE := replica],
         seq(CLUSTER_SLOTS, j => Some(VOTER)), {}, 1, IDLE, true, true)
  }

  function Start(): Cluster {
    Cluster(map[VOTER := StartView(VOTER, 0), EARLY := StartView(EARLY, 0), LATE := StartView(LATE, 1)],
            multiset{}, {}, map[VOTER := EMPTY, EARLY := EMPTY, LATE := EMPTY], {})
  }

  lemma StartViewValid(me: Id, epoch: nat)
    requires me in {VOTER, EARLY, LATE}
    ensures Valid(StartView(me, epoch)) && Dominated(StartView(me, epoch))
  {
  }

  lemma StartInit()
    ensures Init(Start()) && World(Start())
  {
    hide Valid, Dominated, SlotsOf;
    StartViewValid(VOTER, 0);
    StartViewValid(EARLY, 0);
    StartViewValid(LATE, 1);
  }

  lemma StartReady()
    ensures LateReady(Start(), 0) && HasCandidate(Start(), EARLY, 0, IDLE, EMPTY)
  {
    var c := Start();
    StartViewValid(VOTER, 0);
    StartViewValid(EARLY, 0);
    StartViewValid(LATE, 1);
    assert HasVoter(c, 0, 0) && HasCandidate(c, LATE, 1, IDLE, EMPTY) && HasCandidate(c, EARLY, 0, IDLE, EMPTY);
    assert World(c) && Reach(c) by {
      StartInit();
      assert IsRun([c], []) && [c][|[c]| - 1] == c;
    }
  }

  lemma RunToTwoWins() returns (c: Cluster)
    ensures Reach(c) && World(c)
    ensures Victory(EARLY, 2, 1, Tally({}, 1)) in c.wins && Victory(LATE, 2, 1, Tally({VOTER}, 0)) in c.wins
  {
    StartReady();
    var ack1, ack2;
    c, ack1 := EarlyAsks(Start());
    c := EarlyRestarts(c, ack1);
    c := EarlyCounts(c, ack1);
    c := EarlyRetries(c);
    c := EarlyWins(c);
    c, ack2 := LateAsks(c);
    c := LateWins(c, ack2);
  }

  /** Two replicas win epoch 2: every condition of `ElectionSafety` holds except that
      the count of one of them has a stale vote. */
  lemma StaleVoteElectsTwo()
    ensures exists run: seq<Cluster>, steps: seq<Step>, a: Victory, b: Victory ::
      && IsRun(run, steps) && Rivals(run[|run| - 1], a, b, {VOTER})
      && a.candidate != b.candidate && a.tally.stale == 1 && b.tally.stale == 0
  {
    var c := RunToTwoWins();
    var run: seq<Cluster>, steps: seq<Step> :| IsRun(run, steps) && run[|run| - 1] == c;
    var a, b := Victory(EARLY, 2, 1, Tally({}, 1)), Victory(LATE, 2, 1, Tally({VOTER}, 0));
    assert Rivals(run[|run| - 1], a, b, {VOTER});
  }
}
