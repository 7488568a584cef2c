/** When a slot update does not return: the two inputs that stop the server, exactly when they occur, and the
    condition that rules them out and that every packet keeps. */
module ClusterFate {
  import opened Options
  import opened ClusterView

  // ------------------------------------------------------------------
  // Exactly when

  /** The assertion of `clusterSetMaster` fires if and only if a replica keeps a slot of its own while the claim
      takes every slot of its master. */
  lemma AssertionFires(v: View, sender: Id, epoch: nat, slots: set<nat>, env: Env)
    requires Valid(v) && sender != v.me
    ensures
      var taken := Taken(v, sender, epoch, slots);
      UpdateFate(v, sender, epoch, slots, env) == OwnsSlots <==>
        && !env.noRedirection && !Me(v).master && Me(v).slaveof.Some?
        && !(SlotsOf(v, v.me) <= taken)
        && SlotsOf(v, Me(v).slaveof.value) != {} && SlotsOf(v, Me(v).slaveof.value) <= taken
        && (env.allowReplicaMigration || Claimed(v, slots) == SlotsOf(v, Me(v).slaveof.value))
  {
    hide Claimed, Taken, SlotsOf, Moved, Lost;
    if CurrentMaster(v).Some? {
      var m, taken := CurrentMaster(v).value, Taken(v, sender, epoch, slots);
      LeftOf(v, sender, epoch, slots, v.me);
      LeftOf(v, sender, epoch, slots, m);
      LostOf(v, sender, epoch, slots, m);
      Within(SlotsOf(v, m), taken);
      Within(SlotsOf(v, v.me), taken);
    }
  }

  lemma Within(a: set<nat>, b: set<nat>)
    ensures a - b == {} <==> a <= b
    ensures a <= b ==> a * b == a
    ensures a * b == {} && a <= b ==> a == {}
  {
    assert a - b == {} ==> forall x :: x in a ==> x !in a - b;
    assert a <= b ==> a * b == a;
  }

  /** What a claim leaves a node that did not make it. */
  lemma LeftOf(v: View, sender: Id, epoch: nat, slots: set<nat>, n: Id)
    requires Valid(v)
    ensures n != sender ==> SlotsOf(Moved(v, sender, epoch, slots), n) == SlotsOf(v, n) - Taken(v, sender, epoch, slots)
    ensures n == sender ==> SlotsOf(v, n) <= SlotsOf(Moved(v, sender, epoch, slots), n)
    ensures n == sender ==> SlotsOf(v, n) * Taken(v, sender, epoch, slots) == {}
  {
  }

  lemma LostOf(v: View, sender: Id, epoch: nat, slots: set<nat>, m: Id)
    requires Valid(v) && CurrentMaster(v) == Some(m)
    ensures Lost(v, sender, epoch, slots) == SlotsOf(v, m) * Taken(v, sender, epoch, slots)
  {
  }

  /** A missing master is read through if and only if a replica without one hears a claim to a free slot. */
  lemma MissingMasterRead(v: View, sender: Id, epoch: nat, slots: set<nat>, env: Env)
    requires Valid(v) && sender != v.me
    ensures UpdateFate(v, sender, epoch, slots, env) == NoMaster <==>
      && !env.noRedirection && !Me(v).master && Me(v).slaveof.None?
      && exists j :: 0 <= j < CLUSTER_SLOTS && j in slots && j !in v.importing && v.owner[j].None?
  {
    if CurrentMaster(v).None? {
      var lost := Lost(v, sender, epoch, slots);
      if j :| 0 <= j < CLUSTER_SLOTS && j in slots && j !in v.importing && v.owner[j].None? {
        assert j in lost;
      } else {
        assert lost == {};
      }
    }
  }

  // ------------------------------------------------------------------
  // Two inputs

  /** Node 3 claims slots 0 and 1. */
  const CLAIM: Packet := Packet(1, 3, 5, 5, None, {0, 1}, Pong)

  const CALM: Env := Env(0, 0, true, false, false, false, 0, 0, false)

  /** Node 1, a replica with the given master, owns slot 7; node 2 owns slot 0; node 3 has a greater epoch. */
  function Replica(master: Option<Id>): View {
    var peers :=
      map[1 := Peer(0, false, master, false, 0), 2 := Peer(1, true, None, false, 0),
          3 := Peer(5, true, None, false, 0)];
    View(1, 5, 0, peers, seq(CLUSTER_SLOTS, j => if j == 0 then Some(2) else if j == 7 then Some(1) else None),
         {}, 2, Election(0, 0, false, 0), false, false)
  }

  lemma ReplicaFate(master: Option<Id>)
    requires master in {None, Some(2)}
    ensures Valid(Replica(master))
    ensures ProcessFate(Replica(master), CLAIM, CALM) == UpdateFate(Replica(master), 3, 5, {0, 1}, CALM)
    ensures Taken(Replica(master), 3, 5, {0, 1}) == {0, 1}
    ensures SlotsOf(Replica(master), 1) == {7} && SlotsOf(Replica(master), 2) == {0}
  {
    hide UpdateFate;
    var v := Replica(master);
    HeaderValid(v, CLAIM);
    assert TakeHeader(v, CLAIM) == v && SwitchRole(v, CLAIM) == v;
    assert 0 !in SlotsOf(v, 3);
  }

  /** A replica that was given a slot by hand stops at the assertion when its master loses its last slot. */
  lemma SlotOfReplicaAborts()
    ensures Valid(Replica(Some(2))) && ProcessFate(Replica(Some(2)), CLAIM, CALM) == OwnsSlots
  {
    hide ProcessFate, Taken, SlotsOf;
    ReplicaFate(Some(2));
    AssertionFires(Replica(Some(2)), 3, 5, {0, 1}, CALM);
  }

  /** A replica without a known master stops at the first free slot it hears claimed. */
  lemma MissingMasterStops()
    ensures Valid(Replica(None)) && ProcessFate(Replica(None), CLAIM, CALM) == NoMaster
  {
    hide ProcessFate, Taken, SlotsOf;
    ReplicaFate(None);
    MissingMasterRead(Replica(None), 3, 5, {0, 1}, CALM);
    assert Replica(None).owner[1].None?;
  }

  // ------------------------------------------------------------------
  // The condition that rules both out

  /** A replica knows its master and owns no slot. */
  ghost predicate Ready(v: View) {
    Valid(v) && CurrentMaster(v).Some? && (!Me(v).master ==> SlotsOf(v, v.me) == {})
  }

  lemma SwitchRoleReady(v: View, p: Packet)
    requires Ready(v) && p.sender in v.peers && p.sender != v.me
    ensures Ready(SwitchRole(v, p)) && SwitchRole(v, p).me == v.me && p.sender in SwitchRole(v, p).peers
  {
    SwitchRoleValid(v, p);
    assert SlotsOf(SwitchRole(v, p), v.me) == SlotsOf(v, v.me);
  }

  /** A slot update returns, and leaves a replica with a known master and without slots. */
  lemma UpdateSlotsReady(v: View, sender: Id, epoch: nat, slots: set<nat>, env: Env)
    requires Ready(v) && sender in v.peers
    ensures UpdateFate(v, sender, epoch, slots, env) == Survives
    ensures Ready(UpdateSlotsConfigWith(v, sender, epoch, slots, env))
  {
    UpdateSlotsValid(v, sender, epoch, slots, env);
    if sender != v.me {
      LeftOf(v, sender, epoch, slots, v.me);
      var w := UpdateSlotsConfigWith(v, sender, epoch, slots, env);
      assert SlotsOf(w, v.me) == SlotsOf(Moved(v, sender, epoch, slots), v.me);
    }
  }

  lemma ConfigReady(v: View, p: Packet, env: Env)
    requires Ready(v) && p.sender in v.peers && p.sender != v.me
    ensures ConfigFate(v, p, env) == Survives && Ready(ProcessConfig(v, p, env).view)
  {
    hide UpdateFate, UpdateSlotsConfigWith, SwitchRole, Dirty, Correction;
    SwitchRoleReady(v, p);
    var v1 := SwitchRole(v, p);
    UpdateSlotsReady(v1, p.sender, p.configEpoch, p.slots, env);
    TakeClaimsValid(v1, p, env);
    BumpReady(TakeClaims(v1, p, env));
  }

  lemma BumpReady(v: View)
    requires Ready(v)
    ensures Ready(BumpOwnEpoch(v))
  {
  }

  lemma ReportReady(v: View, p: Packet, env: Env)
    requires Ready(v) && p.body.Update?
    ensures ReportFate(v, p, env) == Survives && Ready(ProcessUpdate(v, p, env))
  {
    hide UpdateFate, UpdateSlotsConfigWith;
    if IsNews(v, p) {
      assert SlotsOf(Reported(v, p), v.me) == SlotsOf(v, v.me);
      UpdateSlotsReady(Reported(v, p), p.body.node, p.body.epoch, p.body.claim, env);
    }
  }

  lemma HeaderReady(v: View, p: Packet)
    requires Ready(v) && p.sender in v.peers
    ensures Ready(TakeHeader(v, p)) && TakeHeader(v, p).me == v.me && p.sender in TakeHeader(v, p).peers
  {
    HeaderValid(v, p);
  }

  lemma VoteReady(v: View, p: Packet, env: Env)
    requires Ready(v) && p.sender in v.peers && p.body.AuthRequest?
    ensures Ready(Vote(v, p, env).view)
  {
    VoteValid(v, p, env);
  }

  /** Whatever packet of another node arrives, a node that is ready survives it and stays ready. */
  lemma ProcessReady(v: View, p: Packet, env: Env)
    requires Ready(v) && p.sender != v.me
    ensures ProcessFate(v, p, env) == Survives && Ready(Process(v, p, env).view)
  {
    hide ConfigFate, ProcessConfig, ReportFate, ProcessUpdate, Vote, TakeHeader;
    if p.sender in v.peers {
      HeaderReady(v, p);
      var v1 := TakeHeader(v, p);
      match p.body {
        case Ping => ConfigReady(v1, p, env);
        case Pong => ConfigReady(v1, p, env);
        case Update(_, _, _) => ReportReady(v1, p, env);
        case AuthRequest(_) => VoteReady(v1, p, env);
        case Fail(_) =>
        case AuthAck =>
        case Other =>
      }
    }
  }
}
