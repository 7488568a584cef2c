/** Config epoch collisions: when nothing else changes config epochs, a node with
    `k` greater node IDs bumps its own at most `k` times. */
module ClusterCollision {
  import opened Options
  import opened ClusterView
  import opened ClusterEffects
  import opened ClusterProtocol
  import opened ClusterSafety
  import opened EpochHistory

  function Own(v: View): nat
    requires v.me in v.peers
  {
    Me(v).configEpoch
  }

  // ------------------------------------------------------------------
  // One step

  /** The packet is from `n` to another node and, if it announces a master, shows this epoch. */
  ghost predicate Shows(p: Packet, n: Id, epoch: nat) {
    p.sender == n && p.dst != n && (p.slaveof.None? ==> p.configEpoch == epoch)
  }

  lemma BuildShows(v: View, dst: Id, body: Body)
    requires Valid(v) && dst != v.me
    ensures Shows(Build(v, dst, body), v.me, Own(v))
  {
  }

  lemma {:induction false} CorrectionShows(v: View, p: Packet, j: nat)
    requires Valid(v) && j <= CLUSTER_SLOTS && p.sender != v.me
    ensures forall q | q in Correction(v, p, j) :: Shows(q, v.me, Own(v))
    decreases CLUSTER_SLOTS - j
  {
    if j < CLUSTER_SLOTS && !Outdated(v, p, j) {
      CorrectionShows(v, p, j + 1);
    }
  }

  /** `p` makes its receiver bump: it is a PING or PONG of a master with a greater ID and the same epoch. */
  ghost predicate Collision(v: View, p: Packet)
    requires v.me in v.peers
  {
    (p.body.Ping? || p.body.Pong?) && p.slaveof.None? && v.me < p.sender && p.configEpoch == Own(v)
  }

  lemma ConfigOwn(v: View, p: Packet, env: Env)
    requires Valid(v) && p.sender in v.peers && p.sender != v.me
    ensures
      var r := ProcessConfig(v, p, env);
      && r.view.me == v.me && v.me in r.view.peers
      && (Own(r.view) != Own(v) ==> p.slaveof.None? && v.me < p.sender && p.configEpoch == Own(v))
      && (forall q | q in r.sent :: Shows(q, v.me, Own(v)))
  {
    var v1 := SwitchRole(v, p);
    SwitchRoleValid(v, p);
    RoleEffects(v, p);
    var v2 := TakeClaims(v1, p, env);
    TakeClaimsValid(v1, p, env);
    ClaimEffects(v1, p, env);
    assert Own(v2) == Own(v);
    CorrectionShows(v2, p, 0);
    if Collides(v2, p) {
      assert v2.peers[p.sender].master;
      SenderStaysReplica(v, p, env);
    }
  }

  /** A node that announces a master is a replica for its receiver. */
  lemma SenderStaysReplica(v: View, p: Packet, env: Env)
    requires Valid(v) && p.sender in v.peers && p.sender != v.me
    ensures Valid(SwitchRole(v, p))
    ensures p.slaveof.Some? ==> !SwitchRole(v, p).peers[p.sender].master
    ensures p.slaveof.Some? ==> p.sender in TakeClaims(SwitchRole(v, p), p, env).peers
    ensures p.slaveof.Some? ==> !TakeClaims(SwitchRole(v, p), p, env).peers[p.sender].master
  {
    SwitchRoleValid(v, p);
  }

  /** Only a collision changes the epoch of a node that processes a packet about others. */
  lemma ProcessOwn(v: View, p: Packet, env: Env)
    requires Valid(v) && p.sender != v.me && !(p.body.Update? && p.body.node == v.me)
    ensures
      var r := Process(v, p, env);
      && r.view.me == v.me && v.me in r.view.peers
      && (Own(r.view) != Own(v) ==> Collision(v, p))
      && (forall q | q in r.sent :: Shows(q, v.me, Own(v)))
  {
    ProcessValid(v, p, env);
    if p.sender !in v.peers {
      BuildShows(v, p.sender, Pong);
    } else {
      var v1 := TakeHeader(v, p);
      HeaderValid(v, p);
      match p.body {
        case Ping =>
          ConfigOwn(v1, p, env);
          BuildShows(v1, p.sender, Pong);
        case Pong => ConfigOwn(v1, p, env);
        case AuthRequest(_) => VoteOwn(v1, p, env);
        case Update(_, _, _) => UpdateOwn(v1, p, env);
        case Fail(_) =>
        case AuthAck =>
        case Other =>
      }
    }
  }

  lemma VoteOwn(v: View, p: Packet, env: Env)
    requires Valid(v) && p.sender in v.peers && p.sender != v.me && p.body.AuthRequest?
    ensures v.me in Vote(v, p, env).view.peers && Own(Vote(v, p, env).view) == Own(v)
    ensures forall q | q in Vote(v, p, env).sent :: Shows(q, v.me, Own(v))
  {
    VoteValid(v, p, env);
    BuildShows(Vote(v, p, env).view, p.sender, AuthAck);
  }

  lemma UpdateOwn(v: View, p: Packet, env: Env)
    requires Valid(v) && p.body.Update? && p.body.node != v.me
    ensures v.me in ProcessUpdate(v, p, env).peers && Own(ProcessUpdate(v, p, env)) == Own(v)
  {
    UpdateValid(v, p, env);
    var n := p.body.node;
    if n in v.peers && v.peers[n].configEpoch < p.body.epoch {
      var v1 := SetNodeAsMaster(v, n);
      var v2 := WithPeer(v1, n, v1.peers[n].(configEpoch := p.body.epoch));
      SlotEffects(v2, n, p.body.epoch, p.body.claim, env);
    }
  }

  lemma TickOwn(v: View, env: Env)
    requires Valid(v) && Branch(v, env) != Win
    ensures
      var r := Tick(v, env);
      && r.view.me == v.me && v.me in r.view.peers && Own(r.view) == Own(v)
      && (forall q | q in r.sent :: Shows(q, v.me, Own(v)))
  {
    TickValid(v, env);
    var r := Tick(v, env);
    forall q | q in r.sent ensures Shows(q, v.me, Own(v)) {
      BuildShows(r.view, q.dst, q.body);
    }
  }

  /** The steps that set config epochs other than by a collision: a bump without
      consensus, a promotion, and an UPDATE about the receiver itself. */
  ghost predicate SetsEpoch(c: Cluster, s: Step)
    requires NodesOk(c) && Enabled(c, s)
  {
    || s.Bump?
    || (s.Timer? && Branch(c.views[s.i], s.env) == Win)
    || (s.Deliver? && s.p.body.Update? && s.p.body.node == s.p.dst)
  }

  /** In one step, an own epoch changes only by a collision, and every packet sent shows
      an epoch its sender had. */
  lemma StepOwn(c: Cluster, s: Step, d: Cluster, x: Id)
    requires IsStep(c, s, d) && !SetsEpoch(c, s) && x in c.views
    requires forall p | p in c.net :: p.dst != p.sender
    ensures x in d.views && d.views[x].me == x && x in d.views[x].peers
    ensures Own(d.views[x]) != Own(c.views[x]) ==>
      s.Deliver? && s.p in c.net && s.p.dst == x && Collision(c.views[x], s.p)
  {
    var v := c.views[x];
    match s {
      case Deliver(p, env) => if p.dst == x { ProcessOwn(v, p, env); }
      case Timer(i, env) => if i == x { TickOwn(v, env); }
      case Forget(i, n, importing) => if i == x { ForgetEffects(v, n, importing); }
      case Bump(_) =>
      case Local(_, _) =>
      case Send(_, _, _) =>
      case Lose(_) =>
    }
  }

  lemma StepPackets(c: Cluster, s: Step, d: Cluster, q: Packet)
    requires IsStep(c, s, d) && !SetsEpoch(c, s)
    requires forall p | p in c.net :: p.dst != p.sender
    requires q in d.net && q !in c.net
    ensures q.sender in c.views && Shows(q, q.sender, Own(c.views[q.sender]))
  {
    match s {
      case Deliver(p, env) =>
        ProcessOwn(c.views[p.dst], p, env);
        assert q in Process(c.views[p.dst], p, env).sent;
      case Timer(i, env) =>
        TickOwn(c.views[i], env);
        TickValid(c.views[i], env);
        assert q in Tick(c.views[i], env).sent;
      case Send(i, dst, body) =>
        BuildShows(c.views[i], dst, body);
      case Bump(_) =>
      case Local(_, _) =>
      case Forget(_, _, _) =>
      case Lose(_) =>
    }
  }

  // ------------------------------------------------------------------
  // Runs

  /** Along this run nothing but collisions sets config epochs. */
  ghost predicate OnlyCollisions(run: seq<Cluster>, steps: seq<Step>)
    requires IsRun(run, steps)
  {
    forall k {:trigger steps[k]} | 0 <= k < |steps| ::
      IsStep(run[k], steps[k], run[k + 1]) && !SetsEpoch(run[k], steps[k])
  }

  /** The epoch node `x` has for itself. */
  ghost function OwnIn(c: Cluster, x: Id): nat {
    if x in c.views && c.views[x].me in c.views[x].peers then Own(c.views[x]) else 0
  }

  /** The own epoch of every node at every moment of a run. */
  ghost function OwnEpochs(run: seq<Cluster>): History {
    seq(|run|, k requires 0 <= k < |run| => map x | x in run[k].views :: OwnIn(run[k], x))
  }

  /** Packets in flight are from another node and show an epoch their sender once had. */
  ghost predicate NetInv(h: History, c: Cluster, k: nat)
    requires k < |h|
  {
    forall p | p in c.net :: p.dst != p.sender && (p.slaveof.None? ==> Had(h, p.sender, p.configEpoch, k))
  }

  lemma StepNetInv(c: Cluster, s: Step, d: Cluster, h: History, k: nat)
    requires IsStep(c, s, d) && !SetsEpoch(c, s) && k + 1 < |h| && NetInv(h, c, k)
    requires forall x | x in c.views :: x in h[k] && h[k][x] == OwnIn(c, x)
    ensures NetInv(h, d, k + 1)
  {
    forall p | p in d.net
      ensures p.dst != p.sender && (p.slaveof.None? ==> Had(h, p.sender, p.configEpoch, k + 1))
    {
      if p in c.net {
        if p.slaveof.None? {
          HadLater(h, p.sender, p.configEpoch, k, k + 1);
        }
      } else {
        StepPackets(c, s, d, p);
        if p.slaveof.None? {
          HadLater(h, p.sender, p.configEpoch, k, k + 1);
        }
      }
    }
  }

  lemma {:induction false} RunNetInv(run: seq<Cluster>, steps: seq<Step>, h: History, k: nat)
    requires IsRun(run, steps) && OnlyCollisions(run, steps) && k < |run|
    requires h == OwnEpochs(run)
    ensures NetInv(h, run[k], k)
  {
    hide Next, Enabled, Valid, Dominated;
    if k > 0 {
      RunNetInv(run, steps, h, k - 1);
      assert IsStep(run[k - 1], steps[k - 1], run[k]) && !SetsEpoch(run[k - 1], steps[k - 1]);
      StepNetInv(run[k - 1], steps[k - 1], run[k], h, k - 1);
    }
  }

  /** A step changes an own epoch only upwards, and only away from one that a greater node had. */
  lemma StepContests(c: Cluster, s: Step, d: Cluster, h: History, k: nat, x: Id)
    requires IsStep(c, s, d) && !SetsEpoch(c, s) && k + 1 < |h| && NetInv(h, c, k)
    requires x in c.views && x in d.views && AdvancesFor(c.views[x], d.views[x], x)
    requires x in h[k] && h[k][x] == OwnIn(c, x) && x in h[k + 1] && h[k + 1][x] == OwnIn(d, x)
    requires forall p | p in c.net :: p.sender in c.views
    ensures Contests(h, c.views.Keys, x, k)
  {
    StepOwn(c, s, d, x);
    if h[k][x] != h[k + 1][x] {
      assert Had(h, s.p.sender, h[k][x], k);
    }
  }

  lemma StepKeepsNodes(c: Cluster, s: Step, d: Cluster)
    requires IsStep(c, s, d)
    ensures d.views.Keys == c.views.Keys
  {
  }

  lemma {:induction false} RunKeepsNodes(run: seq<Cluster>, steps: seq<Step>, k: nat)
    requires IsRun(run, steps) && k < |run|
    ensures run[k].views.Keys == run[0].views.Keys
  {
    if k > 0 {
      RunKeepsNodes(run, steps, k - 1);
      assert IsStep(run[k - 1], steps[k - 1], run[k]);
      StepKeepsNodes(run[k - 1], steps[k - 1], run[k]);
    }
  }

  lemma RunSenders(run: seq<Cluster>, steps: seq<Step>, k: nat)
    requires IsRun(run, steps) && k < |run|
    ensures forall p | p in run[k].net :: p.sender in run[k].views
  {
    RunEpochs(run, steps, k);
  }

  lemma RunContests(run: seq<Cluster>, steps: seq<Step>, h: History, k: nat, x: Id)
    requires IsRun(run, steps) && OnlyCollisions(run, steps) && k < |steps| && x in run[k].views
    requires h == OwnEpochs(run) && x in run[k + 1].views
    ensures Contests(h, run[k].views.Keys, x, k)
  {
    RunNetInv(run, steps, h, k);
    RunStepAdvances(run, steps, k, x, x);
    RunSenders(run, steps, k);
    assert IsStep(run[k], steps[k], run[k + 1]) && !SetsEpoch(run[k], steps[k]);
    StepContests(run[k], steps[k], run[k + 1], h, k, x);
  }

  /** In every run in which only collisions set config epochs, a node with `k` greater
      node IDs changes its own epoch at most `k` times, however long the run. */
  lemma CollisionsEnd(run: seq<Cluster>, steps: seq<Step>, x: Id)
    requires IsRun(run, steps) && OnlyCollisions(run, steps) && x in run[0].views
    ensures Contested(OwnEpochs(run), run[0].views.Keys)
    ensures Bumps(OwnEpochs(run), run[0].views.Keys, x, |steps|) <= |Above(run[0].views.Keys, x)|
  {
    var h, ids := OwnEpochs(run), run[0].views.Keys;
    forall k | 0 <= k < |h| ensures h[k].Keys == run[k].views.Keys == ids {
      RunKeepsNodes(run, steps, k);
    }
    forall k, n | 0 <= k < |h| - 1 && n in ids ensures Contests(h, ids, n, k) {
      RunContests(run, steps, h, k, n);
    }
    FewBumps(h, ids, x, |steps|);
  }

  // ------------------------------------------------------------------
  // When nothing is left to resolve

  /** Processing a fresh PING of master `w` makes master `v` change its epoch. */
  ghost predicate FreshPingBumps(v: View, w: View, env: Env)
    requires Valid(v) && Valid(w)
  {
    var u := Process(v, Build(w, v.me, Ping), env).view;
    v.me in u.peers && u.peers[v.me].configEpoch != Own(v)
  }

  /** No claim with this node's own epoch takes its slots, so it stays a master. */
  lemma EqualEpochKeepsMaster(v: View, p: Packet, env: Env)
    requires Valid(v) && p.sender in v.peers && p.sender != v.me && p.slaveof.None?
    requires Me(v).master && p.configEpoch == Own(v)
    ensures
      var w := TakeClaims(SwitchRole(v, p), p, env);
      w.me == v.me && w.me in w.peers && p.sender in w.peers && Me(w).master && w.peers[p.sender].master
  {
    var v1 := SwitchRole(v, p);
    SwitchRoleValid(v, p);
    RoleEffects(v, p);
    assert Lost(v1, p.sender, p.configEpoch, p.slots) == {};
  }

  /** A fresh PING bumps its receiver exactly when their epochs collide and the sender's ID is greater. */
  lemma FreshPing(v: View, w: View, env: Env)
    requires Valid(v) && Valid(w) && Dominated(v) && v.me != w.me && w.me in v.peers
    requires Me(v).master && Me(w).master && Me(w).slaveof.None?
    requires v.peers[w.me].configEpoch <= Own(w)
    ensures FreshPingBumps(v, w, env) <==> v.me < w.me && Own(v) == Own(w)
  {
    var p := Build(w, v.me, Ping);
    ProcessOwn(v, p, env);
    if v.me < w.me && Own(v) == Own(w) {
      var v1 := TakeHeader(v, p);
      HeaderValid(v, p);
      EqualEpochKeepsMaster(v1, p, env);
      SwitchRoleValid(v1, p);
      RoleEffects(v1, p);
      TakeClaimsValid(SwitchRole(v1, p), p, env);
      ClaimEffects(SwitchRole(v1, p), p, env);
      assert Collides(TakeClaims(SwitchRole(v1, p), p, env), p);
    }
  }

  ghost predicate IsMaster(v: View) {
    v.me in v.peers && Me(v).master && Me(v).slaveof.None?
  }

  ghost predicate AllMasters(c: Cluster) {
    forall i | i in c.views :: IsMaster(c.views[i])
  }

  /** No node is thought to have a greater epoch than it has. */
  ghost predicate KnownBelowOwn(c: Cluster) {
    forall i, n | i in c.views && n in c.views && n in c.views[i].peers ::
      c.views[i].peers[n].configEpoch <= OwnIn(c, n)
  }

  /** A fresh PING of `y` makes `x` bump. */
  ghost predicate Bumped(c: Cluster, x: Id, y: Id, env: Env) {
    x in c.views && y in c.views && Valid(c.views[x]) && Valid(c.views[y]) &&
    FreshPingBumps(c.views[x], c.views[y], env)
  }

  lemma FreshPingBetween(c: Cluster, x: Id, y: Id, env: Env)
    requires EpochsInv(c) && AllMasters(c) && KnownBelowOwn(c) && x in c.views && y in c.views && x != y
    requires y in c.views[x].peers
    ensures Bumped(c, x, y, env) <==> x < y && OwnIn(c, x) == OwnIn(c, y)
  {
    FreshPing(c.views[x], c.views[y], env);
  }

  /** Two masters have distinct epochs if and only if no fresh PING between them makes one bump. */
  lemma QuietIffDistinct(c: Cluster, x: Id, y: Id, env: Env)
    requires EpochsInv(c) && AllMasters(c) && KnownBelowOwn(c) && x in c.views && y in c.views && x != y
    requires y in c.views[x].peers && x in c.views[y].peers
    ensures OwnIn(c, x) != OwnIn(c, y) <==> !Bumped(c, x, y, env) && !Bumped(c, y, x, env)
  {
    FreshPingBetween(c, x, y, env);
    FreshPingBetween(c, y, x, env);
  }

  // ------------------------------------------------------------------
  // Among masters, nobody is thought to be ahead of itself

  /** Epochs known of the nodes in `own` are at most what `own` says. */
  ghost predicate Below(v: View, own: map<Id, nat>) {
    forall n | n in v.peers && n in own :: v.peers[n].configEpoch <= own[n]
  }

  ghost predicate PacketBelow(p: Packet, own: map<Id, nat>) {
    && (p.sender in own ==> p.configEpoch <= own[p.sender])
    && (p.body.Update? && p.body.node in own ==> p.body.epoch <= own[p.body.node])
  }

  /** Only the entry of `i` may be greater. */
  ghost predicate Grows(own: map<Id, nat>, own': map<Id, nat>) {
    own.Keys == own'.Keys && forall n | n in own :: own[n] <= own'[n]
  }

  lemma SameEpochsBelow(v: View, w: View, own: map<Id, nat>)
    requires Below(v, own) && SameEpochs(v, w)
    ensures Below(w, own)
  {
  }

  lemma {:induction false} CorrectionBelow(v: View, p: Packet, j: nat, own: map<Id, nat>)
    requires Valid(v) && Below(v, own) && j <= CLUSTER_SLOTS && Me(v).master
    ensures forall q | q in Correction(v, p, j) :: PacketBelow(q, own)
    decreases CLUSTER_SLOTS - j
  {
    if j < CLUSTER_SLOTS && !Outdated(v, p, j) {
      CorrectionBelow(v, p, j + 1, own);
    }
  }

  lemma ConfigBelow(v: View, p: Packet, env: Env, own: map<Id, nat>)
    requires Valid(v) && p.sender in v.peers && p.sender != v.me && Below(v, own) && v.me in own
    requires ProcessConfig(v, p, env).view.me == v.me && v.me in ProcessConfig(v, p, env).view.peers
    requires Me(ProcessConfig(v, p, env).view).master
    ensures
      var r := ProcessConfig(v, p, env);
      Below(r.view, own[v.me := Own(r.view)]) && forall q | q in r.sent :: PacketBelow(q, own)
  {
    var v1 := SwitchRole(v, p);
    SwitchRoleValid(v, p);
    RoleEffects(v, p);
    SameEpochsBelow(v, v1, own);
    var v2 := TakeClaims(v1, p, env);
    TakeClaimsValid(v1, p, env);
    ClaimEffects(v1, p, env);
    SameEpochsBelow(v1, v2, own);
    assert Me(v2).master;
    CorrectionBelow(v2, p, 0, own);
  }

  lemma UpdateBelow(v: View, p: Packet, env: Env, own: map<Id, nat>)
    requires Valid(v) && p.body.Update? && Below(v, own) && PacketBelow(p, own)
    ensures Below(ProcessUpdate(v, p, env), own)
  {
    var n := p.body.node;
    if n in v.peers && v.peers[n].configEpoch < p.body.epoch {
      var v1 := SetNodeAsMaster(v, n);
      var v2 := WithPeer(v1, n, v1.peers[n].(configEpoch := p.body.epoch));
      SlotEffects(v2, n, p.body.epoch, p.body.claim, env);
      assert Below(v2, own);
      SameEpochsBelow(v2, ProcessUpdate(v, p, env), own);
    }
  }

  lemma HeaderBelow(v: View, p: Packet, own: map<Id, nat>)
    requires Valid(v) && p.sender in v.peers && p.sender != v.me && Below(v, own) && PacketBelow(p, own)
    ensures
      var w := TakeHeader(v, p);
      Valid(w) && w.me == v.me && w.peers.Keys == v.peers.Keys && Me(w).master == Me(v).master && Below(w, own)
  {
    HeaderValid(v, p);
  }

  lemma VoteBelow(v: View, p: Packet, env: Env, own: map<Id, nat>)
    requires Valid(v) && p.sender in v.peers && p.body.AuthRequest? && Below(v, own) && Me(v).master
    ensures
      var r := Vote(v, p, env);
      Below(r.view, own) && forall q | q in r.sent :: PacketBelow(q, own)
  {
    VoteValid(v, p, env);
  }

  lemma DispatchBelow(v: View, p: Packet, env: Env, own: map<Id, nat>)
    requires Valid(v) && p.sender in v.peers && p.sender != v.me && Below(v, own) && PacketBelow(p, own) && v.me in own
    requires var w := Dispatch(v, p, env).view; w.me == v.me && v.me in w.peers && Me(v).master && Me(w).master
    ensures
      var r := Dispatch(v, p, env);
      Below(r.view, own[v.me := Own(r.view)]) && forall q | q in r.sent :: PacketBelow(q, own)
  {
    assert PacketBelow(Build(v, p.sender, Pong), own);
    hide ProcessConfig, ProcessUpdate, Vote, Valid, PacketBelow, Build;
    match p.body {
      case Ping => ConfigBelow(v, p, env, own);
      case Pong => ConfigBelow(v, p, env, own);
      case Update(_, _, _) => UpdateBelow(v, p, env, own);
      case AuthRequest(_) => VoteBelow(v, p, env, own);
      case Fail(_) =>
      case AuthAck =>
      case Other =>
    }
  }

  lemma ProcessBelow(v: View, p: Packet, env: Env, own: map<Id, nat>)
    requires Valid(v) && p.sender != v.me && Below(v, own) && PacketBelow(p, own) && v.me in own && Own(v) == own[v.me]
    requires Me(v).master && v.me in Process(v, p, env).view.peers && Process(v, p, env).view.me == v.me
    requires Me(Process(v, p, env).view).master && Own(v) <= Own(Process(v, p, env).view)
    ensures
      var r := Process(v, p, env);
      Below(r.view, own[v.me := Own(r.view)]) && forall q | q in r.sent :: PacketBelow(q, own)
  {
    if p.sender in v.peers {
      HeaderBelow(v, p, own);
      hide Dispatch, TakeHeader, Valid, PacketBelow;
      DispatchBelow(TakeHeader(v, p), p, env, own);
    }
  }

  ghost function OwnMap(c: Cluster): map<Id, nat> {
    map x | x in c.views :: OwnIn(c, x)
  }

  ghost predicate KnownInv(c: Cluster) {
    && (forall i | i in c.views :: Below(c.views[i], OwnMap(c)))
    && (forall p | p in c.net :: p.dst != p.sender && PacketBelow(p, OwnMap(c)))
  }

  /** Node `i` goes to `w` with epoch `e`; the network only gains packets that are below. */
  lemma MoveKnown(c: Cluster, d: Cluster, i: Id, w: View)
    requires KnownInv(c) && i in c.views && d.views == c.views[i := w] && w.me == i && i in w.peers
    requires OwnIn(c, i) <= Own(w) && Below(w, OwnMap(c)[i := Own(w)])
    requires forall q | q in d.net :: q in c.net || (q.dst != q.sender && PacketBelow(q, OwnMap(c)))
    ensures KnownInv(d)
  {
    assert OwnMap(d) == OwnMap(c)[i := Own(w)];
    assert Grows(OwnMap(c), OwnMap(d));
  }

  lemma DeliverKnown(c: Cluster, p: Packet, env: Env)
    requires KnownInv(c) && p in c.net && p.dst in c.views && p.dst in c.tallies && c.views[p.dst].me == p.dst
    requires Valid(c.views[p.dst]) && Dominated(c.views[p.dst]) && PacketDominated(p)
    requires Me(c.views[p.dst]).master
    requires var w := Process(c.views[p.dst], p, env).view; w.me == p.dst && p.dst in w.peers && Me(w).master
    ensures KnownInv(Received(c, p, env))
  {
    var v := c.views[p.dst];
    var r, d := Process(v, p, env), Received(c, p, env);
    DeliverAdvances(v, p, env);
    ProcessBelow(v, p, env, OwnMap(c));
    ProcessDst(v, p, env);
    assert forall q | q in d.net :: q in c.net || q in r.sent;
    MoveKnown(c, d, p.dst, r.view);
  }

  lemma ProcessDst(v: View, p: Packet, env: Env)
    requires Valid(v) && p.sender != v.me
    ensures forall q | q in Process(v, p, env).sent :: q.dst != q.sender
  {
    ProcessValid(v, p, env);
    if p.sender in v.peers {
      HeaderValid(v, p);
      var v1 := TakeHeader(v, p);
      match p.body {
        case Ping => ConfigOwn(v1, p, env);
        case Pong => ConfigOwn(v1, p, env);
        case AuthRequest(_) => VoteOwn(v1, p, env);
        case Update(_, _, _) =>
        case Fail(_) =>
        case AuthAck =>
        case Other =>
      }
    }
  }

  lemma MasterTick(v: View, env: Env)
    requires Valid(v) && IsMaster(v)
    ensures Tick(v, env) == Outcome(v, {})
  {
  }

  lemma SendKnown(c: Cluster, i: Id, dst: Id, body: Body)
    requires KnownInv(c) && i in c.views && Valid(c.views[i]) && c.views[i].me == i && IsMaster(c.views[i])
    requires dst != i && !body.Update?
    ensures KnownInv(c.(net := c.net + multiset{Build(c.views[i], dst, body)}))
  {
    var d := c.(net := c.net + multiset{Build(c.views[i], dst, body)});
    assert c.views == c.views[i := c.views[i]] && OwnMap(c)[i := Own(c.views[i])] == OwnMap(c);
    MoveKnown(c, d, i, c.views[i]);
  }

  lemma LocalKnown(c: Cluster, i: Id, w: View)
    requires KnownInv(c) && i in c.views && Valid(c.views[i]) && c.views[i].me == i && LocalChange(c.views[i], w)
    ensures KnownInv(c.(views := c.views[i := w]))
  {
    assert OwnMap(c)[i := Own(w)] == OwnMap(c);
    MoveKnown(c, c.(views := c.views[i := w]), i, w);
  }

  lemma ForgetKnown(c: Cluster, i: Id, n: Id, importing: set<nat>)
    requires KnownInv(c) && i in c.views && Valid(c.views[i]) && c.views[i].me == i && n != i
    ensures KnownInv(c.(views := c.views[i := DelNode(c.views[i], n, importing)]))
  {
    ForgetEffects(c.views[i], n, importing);
    var w := DelNode(c.views[i], n, importing);
    assert OwnMap(c)[i := Own(w)] == OwnMap(c);
    MoveKnown(c, c.(views := c.views[i := w]), i, w);
  }

  lemma BumpKnown(c: Cluster, i: Id)
    requires KnownInv(c) && i in c.views && Valid(c.views[i]) && Dominated(c.views[i]) && c.views[i].me == i
    ensures KnownInv(c.(views := c.views[i := BumpWithoutConsensus(c.views[i])]))
  {
    BumpEffects(c.views[i]);
    var w := BumpWithoutConsensus(c.views[i]);
    MoveKnown(c, c.(views := c.views[i := w]), i, w);
  }

  lemma LoseKnown(c: Cluster, p: Packet)
    requires KnownInv(c)
    ensures KnownInv(c.(net := c.net - multiset{p}))
  {
    assert OwnMap(c.(net := c.net - multiset{p})) == OwnMap(c);
  }

  lemma TimerKnown(c: Cluster, i: Id, env: Env)
    requires KnownInv(c) && i in c.views && i in c.tallies && Valid(c.views[i]) && IsMaster(c.views[i])
    ensures KnownInv(Ticked(c, i, env))
  {
    MasterTick(c.views[i], env);
    var d := Ticked(c, i, env);
    assert d.views == c.views && d.net == c.net;
    assert OwnMap(d) == OwnMap(c);
  }

  /** The node that takes the step, if one does. */
  function Actor(s: Step): Option<Id> {
    match s
    case Deliver(p, _) => Some(p.dst)
    case Lose(_) => None
    case Send(i, _, _) => Some(i)
    case Timer(i, _) => Some(i)
    case Bump(i) => Some(i)
    case Local(i, _) => Some(i)
    case Forget(i, _, _) => Some(i)
  }

  lemma StepKnown(c: Cluster, s: Step, d: Cluster)
    requires KnownInv(c) && IsStep(c, s, d)
    requires s.Deliver? ==> PacketDominated(s.p)
    requires Actor(s).Some? ==>
      var i := Actor(s).value;
      && i in c.views && Dominated(c.views[i]) && IsMaster(c.views[i])
      && i in d.views && d.views[i].me == i && IsMaster(d.views[i])
    ensures KnownInv(d)
  {
    hide KnownInv, Valid, Dominated, PacketDominated, Process;
    match s {
      case Deliver(p, env) => DeliverKnown(c, p, env);
      case Lose(p) => LoseKnown(c, p);
      case Send(i, dst, body) => SendKnown(c, i, dst, body);
      case Timer(i, env) => TimerKnown(c, i, env);
      case Bump(i) => BumpKnown(c, i);
      case Local(i, w) => LocalKnown(c, i, w);
      case Forget(i, n, importing) => ForgetKnown(c, i, n, importing);
    }
  }

  lemma RunKnownReady(run: seq<Cluster>, steps: seq<Step>, k: nat)
    requires IsRun(run, steps) && k < |steps| && AllMasters(run[k]) && AllMasters(run[k + 1])
    ensures steps[k].Deliver? ==> PacketDominated(steps[k].p)
    ensures Actor(steps[k]).Some? ==>
      var i, c, d := Actor(steps[k]).value, run[k], run[k + 1];
      && i in c.views && Dominated(c.views[i]) && IsMaster(c.views[i])
      && i in d.views && d.views[i].me == i && IsMaster(d.views[i])
  {
    RunEpochs(run, steps, k);
    assert IsStep(run[k], steps[k], run[k + 1]);
    if Actor(steps[k]).Some? {
      RunStepAdvances(run, steps, k, Actor(steps[k]).value, Actor(steps[k]).value);
    }
  }

  lemma RunStepKnown(run: seq<Cluster>, steps: seq<Step>, k: nat)
    requires IsRun(run, steps) && k < |steps| && AllMasters(run[k]) && AllMasters(run[k + 1]) && KnownInv(run[k])
    ensures KnownInv(run[k + 1])
  {
    hide AllMasters, KnownInv, IsStep, Init, Dominated, PacketDominated, IsMaster;
    RunKnownReady(run, steps, k);
    assert IsStep(run[k], steps[k], run[k + 1]);
    StepKnown(run[k], steps[k], run[k + 1]);
  }

  /** In a run of masters that starts with nobody thought to be ahead of itself, it stays so. */
  lemma {:induction false} MastersKnown(run: seq<Cluster>, steps: seq<Step>, k: nat)
    requires IsRun(run, steps) && k < |run| && KnownBelowOwn(run[0])
    requires forall c | c in run :: AllMasters(c)
    ensures KnownInv(run[k])
  {
    if k > 0 {
      hide AllMasters, KnownInv, IsStep, Init, KnownBelowOwn;
      MastersKnown(run, steps, k - 1);
      assert run[k - 1] in run && run[k] in run;
      RunStepKnown(run, steps, k - 1);
    }
  }

  /** At every moment of a run of masters, two of them have distinct epochs if and only if
      no fresh PING between them makes one bump. */
  lemma SettledIffDistinct(run: seq<Cluster>, steps: seq<Step>, k: nat, x: Id, y: Id, env: Env)
    requires IsRun(run, steps) && k < |run| && KnownBelowOwn(run[0])
    requires forall c | c in run :: AllMasters(c)
    requires x in run[k].views && y in run[k].views && x != y
    requires y in run[k].views[x].peers && x in run[k].views[y].peers
    ensures OwnIn(run[k], x) != OwnIn(run[k], y) <==> !Bumped(run[k], x, y, env) && !Bumped(run[k], y, x, env)
  {
    assert run[k] in run;
    MastersKnown(run, steps, k);
    RunEpochs(run, steps, k);
    KnownOfInv(run[k]);
    QuietIffDistinct(run[k], x, y, env);
  }

  lemma KnownOfInv(c: Cluster)
    requires KnownInv(c)
    ensures KnownBelowOwn(c)
  {
    forall i, n | i in c.views && n in c.views && n in c.views[i].peers
      ensures c.views[i].peers[n].configEpoch <= OwnIn(c, n)
    {
      assert Below(c.views[i], OwnMap(c)) && n in OwnMap(c);
    }
  }
}
