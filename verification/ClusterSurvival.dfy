/** No packet stops a node, in every run in which operators give slots to masters only and every replica starts
    with a known master. */
module ClusterSurvival {
  import opened Options
  import opened ClusterView
  import opened ClusterEffects
  import opened ClusterProtocol
  import opened ClusterFate
  import ClusterCollision
  import ClusterSafety

  /** Every node is ready, and no packet in flight is from its own receiver. */
  ghost predicate Sound(c: Cluster) {
    (forall i | i in c.views :: Ready(c.views[i])) && forall p | p in c.net :: p.dst != p.sender
  }

  /** What operators and failure detection do to a node leaves it ready. */
  ghost predicate ReadyChange(s: Step) {
    s.Local? ==> Ready(s.view)
  }

  lemma PromoteReady(v: View, env: Env)
    requires Ready(v)
    ensures Ready(Promote(v, env))
  {
    PromoteValid(v, env);
  }

  lemma TickReady(v: View, env: Env)
    requires Ready(v)
    ensures Ready(Tick(v, env).view)
    ensures forall q | q in Tick(v, env).sent :: q.dst != q.sender
  {
    hide Promote;
    TickValid(v, env);
    PromoteValid(v, env);
    PromoteReady(v, env);
  }

  lemma ForgetReady(v: View, n: Id, importing: set<nat>)
    requires Ready(v) && MayForget(v, n)
    ensures Ready(DelNode(v, n, importing))
  {
    ForgetEffects(v, n, importing);
    assert SlotsOf(DelNode(v, n, importing), v.me) == SlotsOf(v, v.me);
  }

  /** Node `i` goes to `w`, and what is new in the network is from it to others. */
  lemma MoveSound(c: Cluster, d: Cluster, i: Id, w: View)
    requires Sound(c) && i in c.views && d.views == c.views[i := w] && Ready(w)
    requires forall q | q in d.net :: q in c.net || q.dst != q.sender
    ensures Sound(d)
  {
    hide Ready;
  }

  lemma DeliverSound(c: Cluster, p: Packet, env: Env)
    requires Sound(c) && NodesOk(c) && p in c.net && p.dst in c.views
    ensures Sound(Received(c, p, env))
  {
    var v, d := c.views[p.dst], Received(c, p, env);
    var r := Process(v, p, env);
    ProcessReady(v, p, env);
    ClusterCollision.ProcessDst(v, p, env);
    assert forall q | q in d.net :: q in c.net || q in r.sent;
    MoveSound(c, d, p.dst, r.view);
  }

  lemma TimerSound(c: Cluster, i: Id, env: Env)
    requires Sound(c) && NodesOk(c) && i in c.views
    ensures Sound(Ticked(c, i, env))
  {
    var v, d := c.views[i], Ticked(c, i, env);
    var r := Tick(v, env);
    TickReady(v, env);
    assert forall q | q in d.net :: q in c.net || q in r.sent;
    MoveSound(c, d, i, r.view);
  }

  lemma BumpSound(c: Cluster, i: Id, d: Cluster)
    requires Sound(c) && i in c.views && c.views[i].me in c.views[i].peers
    requires d == c.(views := c.views[i := BumpWithoutConsensus(c.views[i])])
    ensures Sound(d)
  {
    BumpReady(c.views[i]);
    MoveSound(c, d, i, BumpWithoutConsensus(c.views[i]));
  }

  lemma StepSound(c: Cluster, s: Step, d: Cluster)
    requires Sound(c) && IsStep(c, s, d) && ReadyChange(s)
    ensures Sound(d)
  {
    hide Ready, Received, Ticked, BumpWithoutConsensus, DelNode;
    match s {
      case Deliver(p, env) => DeliverSound(c, p, env);
      case Timer(i, env) => TimerSound(c, i, env);
      case Bump(i) => BumpSound(c, i, d);
      case Forget(i, n, importing) =>
        ForgetReady(c.views[i], n, importing);
        MoveSound(c, d, i, DelNode(c.views[i], n, importing));
      case Local(i, w) => MoveSound(c, d, i, w);
      case Send(i, dst, body) =>
      case Lose(p) =>
    }
  }

  lemma {:induction false} RunSound(run: seq<Cluster>, steps: seq<Step>, k: nat)
    requires IsRun(run, steps) && k < |run| && (forall i | i in run[0].views :: Ready(run[0].views[i]))
    requires forall m {:trigger steps[m]} | 0 <= m < |steps| :: ReadyChange(steps[m])
    ensures Sound(run[k])
  {
    hide Ready, Next, Enabled, NodesOk;
    if k > 0 {
      RunSound(run, steps, k - 1);
      assert IsStep(run[k - 1], steps[k - 1], run[k]) && ReadyChange(steps[k - 1]);
      StepSound(run[k - 1], steps[k - 1], run[k]);
    }
  }

  /** At every moment of such a run, whatever packet is in flight and whenever it arrives, its receiver survives it:
      neither the missing master nor the assertion is ever reached. */
  lemma NobodyStops(run: seq<Cluster>, steps: seq<Step>, k: nat, p: Packet, env: Env)
    requires IsRun(run, steps) && k < |run| && (forall i | i in run[0].views :: Ready(run[0].views[i]))
    requires forall m {:trigger steps[m]} | 0 <= m < |steps| :: ReadyChange(steps[m])
    requires p in run[k].net && p.dst in run[k].views
    ensures Valid(run[k].views[p.dst]) && ProcessFate(run[k].views[p.dst], p, env) == Survives
  {
    hide ProcessFate;
    RunSound(run, steps, k);
    ClusterSafety.RunEpochs(run, steps, k);
    ProcessReady(run[k].views[p.dst], p, env);
  }
}
