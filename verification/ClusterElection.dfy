/** Election safety: the invariants that make two winners of one epoch equal. */
module ClusterElection {
  import opened ClusterView
  import opened ClusterEffects
  import opened ClusterProtocol

  /** A request in flight was made for an epoch its sender has reached. */
  ghost predicate RequestsInv(c: Cluster) {
    forall p | p in c.net && p.body.AuthRequest? ::
      p.sender in c.views && p.currentEpoch <= c.views[p.sender].election.epoch
  }

  /** A node votes at most once in an epoch, and only for a candidate that asked in it. */
  ghost predicate GrantsInv(c: Cluster) {
    && (forall g | g in c.grants ::
          && g.voter in c.views && g.candidate in c.views
          && g.epoch <= c.views[g.voter].lastVoteEpoch
          && g.epoch <= c.views[g.candidate].election.epoch)
    && (forall g, h | g in c.grants && h in c.grants && g.voter == h.voter && g.epoch == h.epoch :: g == h)
  }

  /** There is at most one vote in flight for every vote granted. */
  ghost predicate AcksInv(c: Cluster) {
    && (forall p | p in c.net && p.body.AuthAck? ::
          c.net[p] == 1 && Grant(p.sender, p.currentEpoch, p.dst) in c.grants)
    && (forall p, q | p in c.net && q in c.net && p.body.AuthAck? && q.body.AuthAck? ::
          p.sender == q.sender && p.currentEpoch == q.currentEpoch ==> p == q)
  }

  /** The count is the votes of this election plus the stale ones, and a voter
      that is in the tally has no vote in flight any more. */
  ghost predicate TallyInv(c: Cluster, i: Id)
    requires i in c.views && i in c.tallies
  {
    var e := c.views[i].election;
    var t := c.tallies[i];
    && e.count == |t.voters| + t.stale
    && (!e.sent ==> t.voters == {})
    && (forall n | n in t.voters :: Grant(n, e.epoch, i) in c.grants)
    && (forall p | p in c.net && p.body.AuthAck? && p.dst == i && p.currentEpoch == e.epoch :: p.sender !in t.voters)
  }

  ghost predicate TalliesInv(c: Cluster) {
    forall i | i in c.views :: i in c.tallies && TallyInv(c, i)
  }

  ghost predicate WinsInv(c: Cluster) {
    forall w | w in c.wins ::
      && w.size / 2 + 1 <= |w.tally.voters| + w.tally.stale
      && forall n | n in w.tally.voters :: Grant(n, w.epoch, w.candidate) in c.grants
  }

  ghost predicate ElectionInv(c: Cluster) {
    RequestsInv(c) && GrantsInv(c) && AcksInv(c) && TalliesInv(c) && WinsInv(c)
  }

  predicate Electoral(p: Packet) {
    p.body.AuthAck? || p.body.AuthRequest?
  }

  /** A node whose own election and tally stay as they are keeps its invariant. */
  lemma TallyFrame(c: Cluster, d: Cluster, i: Id)
    requires i in c.views && i in c.tallies && TallyInv(c, i)
    requires i in d.views && i in d.tallies && d.tallies[i] == c.tallies[i]
    requires SameElection(c.views[i], d.views[i])
    requires d.grants == c.grants
    requires forall p | p in d.net && p.body.AuthAck? :: p in c.net
    ensures TallyInv(d, i)
  {
  }

  /** Votes granted and in flight stay sound when epochs stay and electoral packets only leave. */
  lemma VotesFrame(c: Cluster, d: Cluster)
    requires RequestsInv(c) && GrantsInv(c) && AcksInv(c) && WinsInv(c)
    requires d.views.Keys == c.views.Keys && d.grants == c.grants && d.wins == c.wins
    requires forall i | i in c.views ::
      d.views[i].lastVoteEpoch == c.views[i].lastVoteEpoch && d.views[i].election.epoch == c.views[i].election.epoch
    requires forall p | p in d.net && Electoral(p) :: p in c.net && d.net[p] <= c.net[p]
    ensures RequestsInv(d) && GrantsInv(d) && AcksInv(d) && WinsInv(d)
  {
  }

  // ------------------------------------------------------------------
  // Steps that leave elections alone

  ghost predicate Quiet(c: Cluster, d: Cluster) {
    && d.views.Keys == c.views.Keys
    && (forall i | i in c.views :: SameElection(c.views[i], d.views[i]))
    && d.grants == c.grants && d.tallies == c.tallies && d.wins == c.wins
    && (forall p | p in d.net && Electoral(p) :: p in c.net && d.net[p] <= c.net[p])
  }

  lemma QuietInv(c: Cluster, d: Cluster)
    requires ElectionInv(c) && Quiet(c, d)
    ensures ElectionInv(d)
  {
    VotesFrame(c, d);
    forall i | i in d.views ensures i in d.tallies && TallyInv(d, i) {
      TallyFrame(c, d, i);
    }
  }

  // ------------------------------------------------------------------
  // Granting a vote

  /** `p.dst` votes for `p.sender`, going to view `w` and sending `ack`. */
  ghost predicate Votes(c: Cluster, d: Cluster, p: Packet, w: View, ack: Packet) {
    && p in c.net && p.body.AuthRequest? && p.dst in c.views
    && w.election == c.views[p.dst].election
    && c.views[p.dst].lastVoteEpoch < w.lastVoteEpoch == p.currentEpoch
    && ack.body.AuthAck? && ack.sender == p.dst && ack.dst == p.sender && ack.currentEpoch == p.currentEpoch
    && d == c.(views := c.views[p.dst := w],
               net := c.net - multiset{p} + multiset{ack},
               grants := c.grants + {Grant(p.dst, p.currentEpoch, p.sender)})
  }

  lemma FreshVote(c: Cluster, d: Cluster, p: Packet, w: View, ack: Packet)
    requires GrantsInv(c) && AcksInv(c) && Votes(c, d, p, w, ack)
    ensures forall g | g in c.grants && g.voter == p.dst :: g.epoch < p.currentEpoch
    ensures forall q | q in c.net && q.body.AuthAck? && q.sender == p.dst :: q.currentEpoch < p.currentEpoch
    ensures ack !in c.net
  {
    forall q | q in c.net && q.body.AuthAck? && q.sender == p.dst ensures q.currentEpoch < p.currentEpoch {
      assert Grant(q.sender, q.currentEpoch, q.dst) in c.grants;
    }
  }

  lemma VotesGrants(c: Cluster, d: Cluster, p: Packet, w: View, ack: Packet)
    requires RequestsInv(c) && GrantsInv(c) && AcksInv(c) && WinsInv(c) && Votes(c, d, p, w, ack)
    ensures RequestsInv(d) && GrantsInv(d) && WinsInv(d)
  {
    hide AcksInv;
    FreshVote(c, d, p, w, ack);
    assert p.sender in c.views && p.currentEpoch <= c.views[p.sender].election.epoch;
  }

  lemma VotesAcks(c: Cluster, d: Cluster, p: Packet, w: View, ack: Packet)
    requires GrantsInv(c) && AcksInv(c) && Votes(c, d, p, w, ack)
    ensures AcksInv(d)
  {
    FreshVote(c, d, p, w, ack);
    forall q | q in d.net && q.body.AuthAck?
      ensures d.net[q] == 1 && Grant(q.sender, q.currentEpoch, q.dst) in d.grants
    {
      if q != ack {
        assert q in c.net;
      }
    }
  }

  lemma VotesTally(c: Cluster, d: Cluster, p: Packet, w: View, ack: Packet, i: Id)
    requires GrantsInv(c) && AcksInv(c) && Votes(c, d, p, w, ack)
    requires i in c.views && i in c.tallies && TallyInv(c, i)
    ensures TallyInv(d, i)
  {
    FreshVote(c, d, p, w, ack);
    var e, t := d.views[i].election, d.tallies[i];
    assert p.dst in t.voters && e.epoch == p.currentEpoch ==> Grant(p.dst, p.currentEpoch, i) in c.grants;
    forall q | q in d.net && q.body.AuthAck? && q.dst == i && q.currentEpoch == e.epoch
      ensures q.sender !in t.voters
    {
      if q != ack {
        assert q in c.net;
      }
    }
  }

  lemma VotesInv(c: Cluster, d: Cluster, p: Packet, w: View, ack: Packet)
    requires ElectionInv(c) && Votes(c, d, p, w, ack)
    ensures ElectionInv(d)
  {
    VotesGrants(c, d, p, w, ack);
    VotesAcks(c, d, p, w, ack);
    forall i | i in d.views ensures i in d.tallies && TallyInv(d, i) {
      VotesTally(c, d, p, w, ack, i);
    }
  }

  // ------------------------------------------------------------------
  // Counting a vote

  /** The vote `p` is counted by `p.dst`, which goes to view `w`. */
  ghost predicate CountsOne(c: Cluster, d: Cluster, p: Packet, w: View) {
    && p in c.net && p.body.AuthAck? && p.dst in c.views && p.dst in c.tallies
    && p.currentEpoch >= c.views[p.dst].election.epoch
    && w.lastVoteEpoch == c.views[p.dst].lastVoteEpoch
    && w.election == c.views[p.dst].election.(count := c.views[p.dst].election.count + 1)
    && d == c.(views := c.views[p.dst := w], net := c.net - multiset{p},
               tallies := c.tallies[p.dst := Tallied(c, p)])
  }

  /** A vote that counts was granted for the epoch this candidate last asked for. */
  lemma CountedVote(c: Cluster, p: Packet)
    requires GrantsInv(c) && AcksInv(c) && p in c.net && p.body.AuthAck? && p.dst in c.views && p.dst in c.tallies
    requires p.currentEpoch >= c.views[p.dst].election.epoch && TallyInv(c, p.dst)
    ensures p.currentEpoch == c.views[p.dst].election.epoch
    ensures Grant(p.sender, c.views[p.dst].election.epoch, p.dst) in c.grants
    ensures p.sender !in c.tallies[p.dst].voters
  {
    assert Grant(p.sender, p.currentEpoch, p.dst) in c.grants;
  }

  lemma CountsTally(c: Cluster, d: Cluster, p: Packet, w: View)
    requires GrantsInv(c) && AcksInv(c) && CountsOne(c, d, p, w) && TallyInv(c, p.dst)
    ensures TallyInv(d, p.dst)
  {
    CountedVote(c, p);
    var i := p.dst;
    var e, t := d.views[i].election, d.tallies[i];
    forall q | q in d.net && q.body.AuthAck? && q.dst == i && q.currentEpoch == e.epoch
      ensures q.sender !in t.voters
    {
      assert q in c.net;
      assert c.net[p] == 1 && q != p;
    }
  }

  lemma CountsInv(c: Cluster, d: Cluster, p: Packet, w: View)
    requires ElectionInv(c) && CountsOne(c, d, p, w)
    ensures ElectionInv(d)
  {
    hide RequestsInv, GrantsInv, AcksInv, WinsInv, TallyInv;
    VotesFrame(c, d);
    forall i | i in d.views ensures i in d.tallies && TallyInv(d, i) {
      if i == p.dst {
        CountsTally(c, d, p, w);
      } else {
        TallyFrame(c, d, i);
      }
    }
  }

  // ------------------------------------------------------------------
  // Starting over, asking for votes, winning

  ghost predicate Resets(c: Cluster, d: Cluster, i: Id, w: View) {
    && i in c.views && d.views == c.views[i := w]
    && w.lastVoteEpoch == c.views[i].lastVoteEpoch
    && w.election.epoch == c.views[i].election.epoch && w.election.count == 0 && !w.election.sent
    && d.grants == c.grants && d.wins == c.wins && d.tallies == c.tallies[i := Tally({}, 0)]
    && (forall p | p in d.net && Electoral(p) :: p in c.net && d.net[p] <= c.net[p])
  }

  lemma ResetsInv(c: Cluster, d: Cluster, i: Id, w: View)
    requires ElectionInv(c) && Resets(c, d, i, w)
    ensures ElectionInv(d)
  {
    VotesFrame(c, d);
    forall j | j in d.views ensures j in d.tallies && TallyInv(d, j) {
      if j != i {
        TallyFrame(c, d, j);
      }
    }
  }

  ghost predicate Requests(c: Cluster, d: Cluster, i: Id, w: View) {
    && i in c.views && d.views == c.views[i := w]
    && w.lastVoteEpoch == c.views[i].lastVoteEpoch
    && c.views[i].election.epoch < w.election.epoch
    && w.election.count == c.views[i].election.count && w.election.sent && !c.views[i].election.sent
    && d.grants == c.grants && d.wins == c.wins && d.tallies == c.tallies
    && (forall p | p in d.net && p.body.AuthAck? :: p in c.net && d.net[p] <= c.net[p])
    && (forall p | p in d.net && p.body.AuthRequest? ::
          p in c.net || (p.sender == i && p.currentEpoch == w.election.epoch))
  }

  lemma RequestsTally(c: Cluster, d: Cluster, i: Id, w: View)
    requires i in c.tallies && Requests(c, d, i, w) && TallyInv(c, i)
    ensures TallyInv(d, i)
  {
  }

  lemma RequestsGrants(c: Cluster, d: Cluster, i: Id, w: View)
    requires RequestsInv(c) && GrantsInv(c) && Requests(c, d, i, w)
    ensures RequestsInv(d) && GrantsInv(d)
  {
  }

  lemma RequestsKeep(c: Cluster, d: Cluster, i: Id, w: View)
    requires ElectionInv(c) && Requests(c, d, i, w)
    ensures ElectionInv(d)
  {
    RequestsGrants(c, d, i, w);
    forall j | j in d.views ensures j in d.tallies && TallyInv(d, j) {
      if j == i {
        RequestsTally(c, d, i, w);
      } else {
        TallyFrame(c, d, j);
      }
    }
  }

  lemma WinRecorded(c: Cluster, i: Id)
    requires TalliesInv(c) && WinsInv(c) && i in c.views && i in c.tallies
    requires c.views[i].election.count >= NeededQuorum(c.views[i])
    ensures WinsInv(c.(wins := c.wins + {Victory(i, c.views[i].election.epoch, c.views[i].size, c.tallies[i])}))
  {
    assert TallyInv(c, i);
  }

  /** Requests and votes do not depend on what was won. */
  lemma WinsApart(c: Cluster, d: Cluster)
    requires RequestsInv(c) && GrantsInv(c) && AcksInv(c) && d == c.(wins := d.wins)
    ensures RequestsInv(d) && GrantsInv(d) && AcksInv(d)
  {
  }

  lemma WinInv(c: Cluster, i: Id)
    requires ElectionInv(c) && i in c.views && i in c.tallies
    requires c.views[i].election.count >= NeededQuorum(c.views[i])
    ensures ElectionInv(c.(wins := c.wins + {Victory(i, c.views[i].election.epoch, c.views[i].size, c.tallies[i])}))
  {
    var d := c.(wins := c.wins + {Victory(i, c.views[i].election.epoch, c.views[i].size, c.tallies[i])});
    WinRecorded(c, i);
    hide RequestsInv, GrantsInv, AcksInv, WinsInv, TallyInv;
    WinsApart(c, d);
    forall j | j in d.views ensures j in d.tallies && TallyInv(d, j) {
      TallyFrame(c, d, j);
    }
  }
}
