/** What one cluster node knows and how each packet, timer tick and command
    changes it. A `View` is the part of `clusterState` that the configuration
    and the elections depend on; the handlers are functions from a view to a
    view and the packets sent. `ClusterServer` implements them in place, with
    the redundant bitmaps and counters of the original. */
module ClusterView {
  import opened Options

  const CLUSTER_SLOTS: nat := 16384

  /** A node name, read as a big-endian number: `memcmp` on names is `<` here. */
  type Id = nat

  /** The entry of the node table for one node. */
  datatype Peer = Peer(configEpoch: nat, master: bool, slaveof: Option<Id>, failed: bool, votedTime: int)

  /** The `failover_auth_*` fields. */
  datatype Election = Election(epoch: nat, count: nat, sent: bool, time: int)

  datatype View = View(
    me: Id,
    currentEpoch: nat,
    lastVoteEpoch: nat,
    peers: map<Id, Peer>,
    owner: seq<Option<Id>>,
    importing: set<nat>,
    size: nat,
    election: Election,
    mfEnd: bool,
    mfCanStart: bool)

  /** Clocks, options and other inputs a handler reads besides its view. */
  datatype Env = Env(
    now: int,
    nodeTimeout: nat,
    allowReplicaMigration: bool,
    noRedirection: bool,
    noFailover: bool,
    dataTooOld: bool,
    delay: nat,
    addedDelay: nat,
    stateUpdated: bool)

  datatype Body =
    | Ping
    | Pong
    | Fail(about: Id)
    | AuthRequest(forceAck: bool)
    | AuthAck
    | Update(node: Id, epoch: nat, claim: set<nat>)
    | Other

  datatype Packet = Packet(
    dst: Id,
    sender: Id,
    currentEpoch: nat,
    configEpoch: nat,
    slaveof: Option<Id>,
    slots: set<nat>,
    body: Body)

  ghost predicate Valid(v: View) {
    && v.me in v.peers
    && |v.owner| == CLUSTER_SLOTS
    && (forall j | 0 <= j < CLUSTER_SLOTS :: v.owner[j].Some? ==> v.owner[j].value in v.peers)
    && (forall n {:trigger v.peers[n].slaveof} | n in v.peers ::
          v.peers[n].slaveof.Some? ==> v.peers[n].slaveof.value in v.peers)
  }

  function Max(a: nat, b: nat): nat {
    if a < b then b else a
  }

  function Me(v: View): Peer
    requires v.me in v.peers
  {
    v.peers[v.me]
  }

  /** The slots that a table binds to node `n`. */
  function Bits(owner: seq<Option<Id>>, n: Id): set<nat> {
    set j | 0 <= j < |owner| && owner[j] == Some(n)
  }

  /** The slot bitmap of node `n`. */
  function SlotsOf(v: View, n: Id): set<nat> {
    Bits(v.owner, n)
  }

  function WithPeer(v: View, n: Id, p: Peer): View {
    v.(peers := v.peers[n := p])
  }

  /** Bind every slot of `slots` to `to`. */
  function Rebind(v: View, slots: set<nat>, to: Option<Id>): View {
    v.(owner := seq(|v.owner|, j requires 0 <= j < |v.owner| => if j in slots then to else v.owner[j]))
  }

  /** The node table without node `n`, which is no longer anybody's master. */
  function Forget(peers: map<Id, Peer>, n: Id): map<Id, Peer> {
    map m | m in peers && m != n :: if peers[m].slaveof == Some(n) then peers[m].(slaveof := None) else peers[m]
  }

  /** `clusterDelNode`; `importing` are the slots that are not imported from `n`. */
  function DelNode(v: View, n: Id, importing: set<nat>): View {
    Rebind(v, SlotsOf(v, n), None).(peers := Forget(v.peers, n), importing := importing)
  }

  // ------------------------------------------------------------------
  // Packet header

  /** `clusterBuildMessageHdr`: a replica advertises its master's slots and epoch. */
  function Build(v: View, dst: Id, body: Body): Packet
    requires Valid(v)
  {
    var shown := if !Me(v).master && Me(v).slaveof.Some? then Me(v).slaveof.value else v.me;
    Packet(dst, v.me, v.currentEpoch, v.peers[shown].configEpoch, Me(v).slaveof, SlotsOf(v, shown), body)
  }

  function Broadcast(v: View, body: Body): set<Packet>
    requires Valid(v)
  {
    set n | n in v.peers && n != v.me :: Build(v, n, body)
  }

  /** The epochs a packet header carries, taken over by every receiver that knows the sender. */
  function TakeHeader(v: View, p: Packet): View
    requires p.sender in v.peers
  {
    var peer := v.peers[p.sender];
    WithPeer(v, p.sender, peer.(configEpoch := Max(peer.configEpoch, p.configEpoch)))
      .(currentEpoch := Max(v.currentEpoch, p.currentEpoch))
  }

  // ------------------------------------------------------------------
  // Roles

  /** `clusterSetNodeAsMaster`. */
  function SetNodeAsMaster(v: View, n: Id): View
    requires n in v.peers
  {
    if v.peers[n].master then v
    else WithPeer(v, n, v.peers[n].(master := true, slaveof := None))
  }

  /** `clusterSetMaster`: this node becomes a replica of `n`. */
  function SetMaster(v: View, n: Id): View
    requires v.me in v.peers
  {
    var v1 := if Me(v).master then v.(importing := {}) else v;
    WithPeer(v1, v.me, Me(v).(master := false, slaveof := Some(n))).(mfEnd := false, mfCanStart := false)
  }

  /** The sender announces whether it is a master or whose replica it is. */
  function SwitchRole(v: View, p: Packet): View
    requires p.sender in v.peers
  {
    if p.slaveof.None? then SetNodeAsMaster(v, p.sender)
    else
      var v1 :=
        if v.peers[p.sender].master then
          WithPeer(Rebind(v, SlotsOf(v, p.sender), None), p.sender, v.peers[p.sender].(master := false))
        else v;
      if p.slaveof.value in v1.peers then
        WithPeer(v1, p.sender, v1.peers[p.sender].(slaveof := p.slaveof))
      else v1
  }

  // ------------------------------------------------------------------
  // Slots

  /** May `sender`, claiming with `epoch`, take slot `j`? */
  predicate Takes(v: View, sender: Id, epoch: nat, j: nat)
    requires j < |v.owner|
    requires v.owner[j].Some? ==> v.owner[j].value in v.peers
  {
    && v.owner[j] != Some(sender)
    && j !in v.importing
    && (v.owner[j].None? || v.peers[v.owner[j].value].configEpoch < epoch)
  }

  function Claimed(v: View, slots: set<nat>): set<nat> {
    set j | j in slots && j < |v.owner|
  }

  function Taken(v: View, sender: Id, epoch: nat, slots: set<nat>): set<nat>
    requires Valid(v)
  {
    set j | 0 <= j < |v.owner| && j in slots && Takes(v, sender, epoch, j)
  }

  /** This node, or the master it replicates. */
  function CurrentMaster(v: View): Option<Id>
    requires v.me in v.peers
  {
    if Me(v).master then Some(v.me) else Me(v).slaveof
  }

  /** Slots that `clusterUpdateSlotsConfigWith` moves away from the current master. A missing master is compared
      like any other, so that for a replica without one these are the free slots. */
  function Lost(v: View, sender: Id, epoch: nat, slots: set<nat>): set<nat>
    requires Valid(v)
  {
    set j | j in Taken(v, sender, epoch, slots) && j < |v.owner| && v.owner[j] == CurrentMaster(v)
  }

  /** The table with what the sender takes. */
  function Moved(v: View, sender: Id, epoch: nat, slots: set<nat>): View
    requires Valid(v)
  {
    Rebind(v, Taken(v, sender, epoch, slots), Some(sender))
  }

  /** The current master loses its last slot, and this node turns to the new owner. */
  predicate Dethroned(v: View, sender: Id, epoch: nat, slots: set<nat>, env: Env)
    requires Valid(v)
  {
    && CurrentMaster(v).Some? && !env.noRedirection && Lost(v, sender, epoch, slots) != {}
    && SlotsOf(Moved(v, sender, epoch, slots), CurrentMaster(v).value) == {}
    && (env.allowReplicaMigration || Lost(v, sender, epoch, slots) == Claimed(v, slots))
  }

  /** `clusterUpdateSlotsConfigWith`, when it returns. */
  function UpdateSlotsConfigWith(v: View, sender: Id, epoch: nat, slots: set<nat>, env: Env): View
    requires Valid(v)
  {
    if sender == v.me then v
    else if Dethroned(v, sender, epoch, slots, env) then SetMaster(Moved(v, sender, epoch, slots), sender)
    else Moved(v, sender, epoch, slots)
  }

  /** How a slot update ends: it returns, it reads through the missing master of a replica, or it runs into the
      assertion that a node which turns to a new master owns no slot. */
  datatype Fate = Survives | NoMaster | OwnsSlots

  function UpdateFate(v: View, sender: Id, epoch: nat, slots: set<nat>, env: Env): Fate
    requires Valid(v)
  {
    if sender == v.me || env.noRedirection || Lost(v, sender, epoch, slots) == {} then Survives
    else if CurrentMaster(v).None? then NoMaster
    else if Dethroned(v, sender, epoch, slots, env) && SlotsOf(Moved(v, sender, epoch, slots), v.me) != {}
    then OwnsSlots
    else Survives
  }

  // ------------------------------------------------------------------
  // Config epoch collisions

  /** `clusterHandleConfigEpochCollision`, with the test made by its caller. */
  predicate Collides(v: View, p: Packet)
    requires v.me in v.peers && p.sender in v.peers
  {
    && Me(v).master && v.peers[p.sender].master
    && p.configEpoch == Me(v).configEpoch
    && v.peers[p.sender].configEpoch == Me(v).configEpoch
    && v.me < p.sender
  }

  function BumpOwnEpoch(v: View): View
    requires v.me in v.peers
  {
    WithPeer(v, v.me, Me(v).(configEpoch := v.currentEpoch + 1)).(currentEpoch := v.currentEpoch + 1)
  }

  /** Is this node's epoch what `clusterGetMaxEpoch` returns? */
  predicate HasGreatestEpoch(v: View)
    requires v.me in v.peers
  {
    v.currentEpoch <= Me(v).configEpoch && forall n | n in v.peers :: v.peers[n].configEpoch <= Me(v).configEpoch
  }

  /** `clusterBumpConfigEpochWithoutConsensus`. */
  function BumpWithoutConsensus(v: View): View
    requires v.me in v.peers
  {
    if Me(v).configEpoch == 0 || !HasGreatestEpoch(v) then BumpOwnEpoch(v) else v
  }

  // ------------------------------------------------------------------
  // PING and PONG

  /** Do the claimed slots differ from what is known of the sender or its master? */
  predicate Dirty(v: View, p: Packet)
    requires p.sender in v.peers
  {
    var m := if v.peers[p.sender].master then Some(p.sender) else v.peers[p.sender].slaveof;
    m.Some? && SlotsOf(v, m.value) != p.slots
  }

  /** Slot `j` is claimed by the sender but known to belong to a node with a greater epoch. */
  predicate Outdated(v: View, p: Packet, j: nat)
    requires j < |v.owner|
    requires v.owner[j].Some? ==> v.owner[j].value in v.peers
  {
    j in p.slots && v.owner[j].Some? && v.owner[j].value != p.sender &&
    v.peers[v.owner[j].value].configEpoch > p.configEpoch
  }

  /** The UPDATE sent back for the first outdated slot from `j` on, if any. */
  function Correction(v: View, p: Packet, j: nat): set<Packet>
    requires Valid(v) && j <= CLUSTER_SLOTS
    decreases CLUSTER_SLOTS - j
  {
    if j == CLUSTER_SLOTS then {}
    else if Outdated(v, p, j) then
      var n := v.owner[j].value;
      {Build(v, p.sender, Update(n, v.peers[n].configEpoch, SlotsOf(v, n)))}
    else Correction(v, p, j + 1)
  }

  datatype Outcome = Outcome(view: View, sent: set<Packet>)

  /** The table after the slots a PING or PONG claims have been looked at. */
  function TakeClaims(v: View, p: Packet, env: Env): View
    requires Valid(v) && p.sender in v.peers
  {
    if v.peers[p.sender].master && Dirty(v, p)
    then UpdateSlotsConfigWith(v, p.sender, p.configEpoch, p.slots, env)
    else v
  }

  /** The PING and PONG part of `clusterProcessPacket`, after the header. */
  function ProcessConfig(v: View, p: Packet, env: Env): Outcome
    requires Valid(v) && p.sender in v.peers
  {
    var v1 := SwitchRole(v, p);
    SwitchRoleValid(v, p);
    var v2 := TakeClaims(v1, p, env);
    TakeClaimsValid(v1, p, env);
    var v3 := if Collides(v2, p) then BumpOwnEpoch(v2) else v2;
    Outcome(v3, if Dirty(v1, p) then Correction(v2, p, 0) else {})
  }

  function ConfigFate(v: View, p: Packet, env: Env): Fate
    requires Valid(v) && p.sender in v.peers
  {
    var v1 := SwitchRole(v, p);
    SwitchRoleValid(v, p);
    if v1.peers[p.sender].master && Dirty(v1, p)
    then UpdateFate(v1, p.sender, p.configEpoch, p.slots, env)
    else Survives
  }

  // ------------------------------------------------------------------
  // Votes

  /** `clusterSendFailoverAuthIfNeeded`: the conditions for a vote. */
  predicate CanVote(v: View, p: Packet, env: Env)
    requires Valid(v) && p.sender in v.peers && p.body.AuthRequest?
  {
    var candidate := v.peers[p.sender];
    && Me(v).master && SlotsOf(v, v.me) != {}
    && p.currentEpoch >= v.currentEpoch
    && v.lastVoteEpoch != v.currentEpoch
    && !candidate.master && candidate.slaveof.Some?
    && (v.peers[candidate.slaveof.value].failed || p.body.forceAck)
    && env.now - v.peers[candidate.slaveof.value].votedTime >= env.nodeTimeout * 2
    && forall j | 0 <= j < CLUSTER_SLOTS && j in p.slots ::
         v.owner[j].None? || v.peers[v.owner[j].value].configEpoch <= p.configEpoch
  }

  function Vote(v: View, p: Packet, env: Env): Outcome
    requires Valid(v) && p.sender in v.peers && p.body.AuthRequest?
  {
    if CanVote(v, p, env) then
      var m := v.peers[p.sender].slaveof.value;
      var v1 := WithPeer(v, m, v.peers[m].(votedTime := env.now)).(lastVoteEpoch := v.currentEpoch);
      Outcome(v1, {Build(v1, p.sender, AuthAck)})
    else Outcome(v, {})
  }

  /** Is this vote counted? */
  predicate Counts(v: View, p: Packet)
    requires p.sender in v.peers
  {
    v.peers[p.sender].master && SlotsOf(v, p.sender) != {} && p.currentEpoch >= v.election.epoch
  }

  function CountVote(v: View, p: Packet): View
    requires p.sender in v.peers
  {
    if Counts(v, p) then v.(election := v.election.(count := v.election.count + 1)) else v
  }

  // ------------------------------------------------------------------
  // UPDATE and FAIL

  /** An UPDATE about a known node, with an epoch that is new. */
  predicate IsNews(v: View, p: Packet)
    requires p.body.Update?
  {
    p.body.node in v.peers && v.peers[p.body.node].configEpoch < p.body.epoch
  }

  /** The node of an UPDATE as a master with its new epoch. */
  function Reported(v: View, p: Packet): View
    requires p.body.Update? && IsNews(v, p)
  {
    var v1 := SetNodeAsMaster(v, p.body.node);
    WithPeer(v1, p.body.node, v1.peers[p.body.node].(configEpoch := p.body.epoch))
  }

  function ProcessUpdate(v: View, p: Packet, env: Env): View
    requires Valid(v) && p.body.Update?
  {
    if IsNews(v, p) then UpdateSlotsConfigWith(Reported(v, p), p.body.node, p.body.epoch, p.body.claim, env) else v
  }

  function ReportFate(v: View, p: Packet, env: Env): Fate
    requires Valid(v) && p.body.Update?
  {
    if IsNews(v, p) then UpdateFate(Reported(v, p), p.body.node, p.body.epoch, p.body.claim, env) else Survives
  }

  function ProcessFail(v: View, p: Packet): View
    requires p.body.Fail?
  {
    if p.body.about in v.peers && p.body.about != v.me
    then WithPeer(v, p.body.about, v.peers[p.body.about].(failed := true))
    else v
  }

  // ------------------------------------------------------------------
  // clusterProcessPacket

  /** What a packet of a known node does once its header has been taken over. */
  function Dispatch(v: View, p: Packet, env: Env): Outcome
    requires Valid(v) && p.sender in v.peers
  {
    match p.body
    case Ping =>
      var r := ProcessConfig(v, p, env);
      Outcome(r.view, r.sent + {Build(v, p.sender, Pong)})
    case Pong => ProcessConfig(v, p, env)
    case Fail(_) => Outcome(ProcessFail(v, p), {})
    case AuthRequest(_) => Vote(v, p, env)
    case AuthAck => Outcome(CountVote(v, p), {})
    case Update(_, _, _) => Outcome(ProcessUpdate(v, p, env), {})
    case Other => Outcome(v, {})
  }

  function Process(v: View, p: Packet, env: Env): Outcome
    requires Valid(v)
  {
    if p.sender in v.peers then
      HeaderValid(v, p);
      Dispatch(TakeHeader(v, p), p, env)
    else
      Outcome(v, if p.body.Ping? then {Build(v, p.sender, Pong)} else {})
  }

  function DispatchFate(v: View, p: Packet, env: Env): Fate
    requires Valid(v) && p.sender in v.peers
  {
    match p.body
    case Ping => ConfigFate(v, p, env)
    case Pong => ConfigFate(v, p, env)
    case Update(_, _, _) => ReportFate(v, p, env)
    case _ => Survives
  }

  /** How processing a packet ends. */
  function ProcessFate(v: View, p: Packet, env: Env): Fate
    requires Valid(v)
  {
    if p.sender in v.peers then
      HeaderValid(v, p);
      DispatchFate(TakeHeader(v, p), p, env)
    else Survives
  }

  // ------------------------------------------------------------------
  // Failover

  /** The `size` that `clusterUpdateState` computes: masters that own a slot. */
  function ClusterSize(v: View): nat {
    |set n | n in v.peers && v.peers[n].master && SlotsOf(v, n) != {}|
  }

  function NeededQuorum(v: View): nat {
    v.size / 2 + 1
  }

  /** `clusterFailoverReplaceYourMaster`, without the PONGs. */
  function ReplaceYourMaster(v: View, env: Env): View
    requires v.me in v.peers
  {
    if Me(v).master || Me(v).slaveof.None? then v
    else
      var mine := SlotsOf(v, Me(v).slaveof.value);
      var v1 := Rebind(SetNodeAsMaster(v, v.me), mine, Some(v.me)).(mfEnd := false, mfCanStart := false);
      if env.stateUpdated then v1.(size := ClusterSize(v1)) else v1
  }

  predicate ManualFailover(v: View) {
    v.mfEnd && v.mfCanStart
  }

  function AuthTimeout(env: Env): nat {
    if env.nodeTimeout * 2 < 2000 then 2000 else env.nodeTimeout * 2
  }

  /** Is this node a replica of a failing (or handed over) master that owns slots? */
  predicate MayFailover(v: View, env: Env)
    requires Valid(v)
  {
    && !Me(v).master && Me(v).slaveof.Some?
    && (v.peers[Me(v).slaveof.value].failed || ManualFailover(v))
    && (!env.noFailover || ManualFailover(v))
    && SlotsOf(v, Me(v).slaveof.value) != {}
    && (!env.dataTooOld || ManualFailover(v))
  }

  datatype TickKind = Idle | Reset | Request | Win

  /** Which branch of `clusterHandleSlaveFailover` runs. */
  function Branch(v: View, env: Env): TickKind
    requires Valid(v)
  {
    var age := env.now - v.election.time;
    if !MayFailover(v, env) then Idle
    else if age > AuthTimeout(env) * 2 then Reset
    else if env.now < Delayed(v, env).election.time || age > AuthTimeout(env) then Idle
    else if !v.election.sent then Request
    else if v.election.count >= NeededQuorum(v) then Win
    else Idle
  }

  /** The election is put off when the rank of this replica got worse. */
  function Delayed(v: View, env: Env): View {
    if !v.election.sent && !v.mfEnd
    then v.(election := v.election.(time := v.election.time + env.addedDelay))
    else v
  }

  /** Replicas of the same master, which are told the replication offset. */
  function Siblings(v: View): set<Id>
    requires v.me in v.peers
  {
    set n | n in v.peers && n != v.me && !v.peers[n].master && v.peers[n].slaveof.Some? &&
            (v.peers[n].slaveof == Some(v.me) || v.peers[n].slaveof == Me(v).slaveof)
  }

  function ResetElection(v: View, env: Env): View {
    v.(election := v.election.(count := 0, sent := false,
                               time := if v.mfEnd then env.now else env.now + env.delay))
  }

  function RequestVotes(v: View): View {
    v.(currentEpoch := v.currentEpoch + 1,
       election := v.election.(epoch := v.currentEpoch + 1, sent := true))
  }

  function Promote(v: View, env: Env): View
    requires v.me in v.peers
  {
    ReplaceYourMaster(
      WithPeer(v, v.me, Me(v).(configEpoch := Max(Me(v).configEpoch, v.election.epoch))), env)
  }

  /** `clusterHandleSlaveFailover`. */
  function Tick(v: View, env: Env): Outcome
    requires Valid(v)
  {
    match Branch(v, env)
    case Idle =>
      if MayFailover(v, env) then Outcome(Delayed(v, env), {}) else Outcome(v, {})
    case Reset =>
      var v1 := ResetElection(v, env);
      Outcome(v1, set n | n in Siblings(v) :: Build(v1, n, Pong))
    case Request =>
      var v1 := RequestVotes(Delayed(v, env));
      Outcome(v1, Broadcast(v1, AuthRequest(v.mfEnd)))
    case Win =>
      var v1 := Promote(v, env);
      PromoteValid(v, env);
      Outcome(v1, Broadcast(v1, Pong))
  }

  // ------------------------------------------------------------------
  // The handlers keep a view well formed

  lemma WithPeerValid(v: View, n: Id, p: Peer)
    requires Valid(v) && n in v.peers
    requires p.slaveof.Some? ==> p.slaveof.value in v.peers
    ensures Valid(WithPeer(v, n, p)) && WithPeer(v, n, p).peers.Keys == v.peers.Keys
  {
  }

  lemma RebindValid(v: View, slots: set<nat>, to: Option<Id>)
    requires Valid(v)
    requires to.Some? ==> to.value in v.peers
    ensures Valid(Rebind(v, slots, to))
  {
  }

  lemma SwitchRoleValid(v: View, p: Packet)
    requires Valid(v) && p.sender in v.peers
    ensures Valid(SwitchRole(v, p))
    ensures SwitchRole(v, p).me == v.me && SwitchRole(v, p).peers.Keys == v.peers.Keys
  {
    var peer := v.peers[p.sender];
    if p.slaveof.None? {
      WithPeerValid(v, p.sender, peer.(master := true, slaveof := None));
    } else {
      var v1 := v;
      if peer.master {
        var v0 := Rebind(v, SlotsOf(v, p.sender), None);
        RebindValid(v, SlotsOf(v, p.sender), None);
        WithPeerValid(v0, p.sender, peer.(master := false));
        v1 := WithPeer(v0, p.sender, peer.(master := false));
      }
      if p.slaveof.value in v1.peers {
        WithPeerValid(v1, p.sender, v1.peers[p.sender].(slaveof := p.slaveof));
      }
    }
  }

  lemma UpdateSlotsValid(v: View, sender: Id, epoch: nat, slots: set<nat>, env: Env)
    requires Valid(v) && sender in v.peers
    ensures Valid(UpdateSlotsConfigWith(v, sender, epoch, slots, env))
    ensures UpdateSlotsConfigWith(v, sender, epoch, slots, env).peers.Keys == v.peers.Keys
    ensures UpdateSlotsConfigWith(v, sender, epoch, slots, env).me == v.me
  {
  }

  lemma TakeClaimsValid(v: View, p: Packet, env: Env)
    requires Valid(v) && p.sender in v.peers
    ensures Valid(TakeClaims(v, p, env))
    ensures TakeClaims(v, p, env).peers.Keys == v.peers.Keys
    ensures TakeClaims(v, p, env).me == v.me
  {
    UpdateSlotsValid(v, p.sender, p.configEpoch, p.slots, env);
  }

  lemma ConfigValid(v: View, p: Packet, env: Env)
    requires Valid(v) && p.sender in v.peers
    ensures Valid(ProcessConfig(v, p, env).view)
    ensures ProcessConfig(v, p, env).view.me == v.me && ProcessConfig(v, p, env).view.peers.Keys == v.peers.Keys
  {
    SwitchRoleValid(v, p);
    TakeClaimsValid(SwitchRole(v, p), p, env);
  }

  lemma UpdateValid(v: View, p: Packet, env: Env)
    requires Valid(v) && p.body.Update?
    ensures Valid(ProcessUpdate(v, p, env))
    ensures ProcessUpdate(v, p, env).me == v.me && ProcessUpdate(v, p, env).peers.Keys == v.peers.Keys
  {
    if IsNews(v, p) {
      UpdateSlotsValid(Reported(v, p), p.body.node, p.body.epoch, p.body.claim, env);
    }
  }

  lemma HeaderValid(v: View, p: Packet)
    requires Valid(v) && p.sender in v.peers
    ensures Valid(TakeHeader(v, p))
    ensures TakeHeader(v, p).me == v.me && TakeHeader(v, p).peers.Keys == v.peers.Keys
  {
  }

  lemma VoteValid(v: View, p: Packet, env: Env)
    requires Valid(v) && p.sender in v.peers && p.body.AuthRequest?
    ensures Valid(Vote(v, p, env).view)
    ensures Vote(v, p, env).view.me == v.me && Vote(v, p, env).view.peers.Keys == v.peers.Keys
  {
  }

  lemma ProcessValid(v: View, p: Packet, env: Env)
    requires Valid(v)
    ensures Valid(Process(v, p, env).view)
    ensures Process(v, p, env).view.me == v.me && Process(v, p, env).view.peers.Keys == v.peers.Keys
  {
    if p.sender in v.peers {
      HeaderValid(v, p);
      var v1 := TakeHeader(v, p);
      match p.body {
        case Ping => ConfigValid(v1, p, env);
        case Pong => ConfigValid(v1, p, env);
        case AuthRequest(_) => VoteValid(v1, p, env);
        case Update(_, _, _) => UpdateValid(v1, p, env);
        case Fail(_) =>
        case AuthAck =>
        case Other =>
      }
    }
  }

  lemma PromoteValid(v: View, env: Env)
    requires Valid(v)
    ensures Valid(Promote(v, env))
    ensures Promote(v, env).me == v.me && Promote(v, env).peers.Keys == v.peers.Keys
  {
  }

  lemma TickValid(v: View, env: Env)
    requires Valid(v)
    ensures Valid(Tick(v, env).view)
    ensures Tick(v, env).view.me == v.me && Tick(v, env).view.peers.Keys == v.peers.Keys
  {
    match Branch(v, env) {
      case Win => PromoteValid(v, env);
      case _ =>
    }
  }
}
