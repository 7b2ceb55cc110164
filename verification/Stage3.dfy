/** The order in which a migrating account's transactions run on its two shards: a state
    machine over the source context and pool, the target context, and messages that may
    be delayed, reordered and repeated. Runs without an abort, of one migration whose
    target context waits for the state of the source. */
module Stage3 {
  import opened MigCtx

  /** A transaction the account sends, or one it only receives. */
  datatype Tx = Tx(id: int, sends: bool, requestTime: int)

  datatype Source = Source(pool: seq<Tx>, seen: set<int>, reg: Register, committed: set<int>, firstNew: int,
                           paused: set<int>, fsm: Fsm, syncNeeded: bool)

  datatype Target = Target(fsm: Fsm, pendingSyncAck: bool)

  datatype Message = StateIni | AckMsg

  /** What can be observed. A transaction packed on the source carries whether it had been
      paused while pooled; a state sent carries the old transactions before the picked one. */
  datatype Event =
    | PackedAtSource(tx: Tx, wasPaused: bool)
    | LeftSource(tx: Tx)
    | SentStateIni(prefix: set<int>)
    | GotStateIni
    | PackedAtTarget(tx: Tx, executed: bool)
    | SentAck
    | GotAck

  datatype World = World(s: Source, t: Target, net: set<Message>, everPaused: set<int>, log: seq<Event>)

  datatype Action =
    | Arrive(tx: Tx)                              // a transaction enters the source pool
    | Redirect(id: int, clientTS: int, arrivalTS: int)  // a new one is registered and sent on
    | Detect(n: int, later: set<int>)             // the detection picks n and pauses later ones
    | PackAtSource(k: nat)
    | Leave(k: nat)                               // a pooled transaction goes to another pool or shard
    | Commit(id: int)
    | EndSourceBlock
    | DeliverStateIni(applied: bool)              // applied now, or kept or ignored
    | PackAtTarget(tx: Tx, executed: bool)
    | EndTargetBlock
    | DeliverAck

  predicate InPool(pool: seq<Tx>, id: int) {
    exists tx :: tx in pool && tx.id == id
  }

  /** What DetectInterleave may pick and pause. */
  ghost predicate MayPick(r: Register, n: int, later: set<int>) {
    && n in r.order && r.New(n)
    && forall id :: id in later ==> id in r.order && !r.New(id) && r.order[id] >= r.order[n]
  }

  ghost predicate PrefixDone(s: Source) {
    && s.firstNew > 0 && s.firstNew in s.reg.order
    && forall id :: id in EarlierOlds(s.reg, s.firstNew) ==> id in s.committed || !InPool(s.pool, id)
  }

  ghost predicate Enabled(w: World, a: Action) {
    match a
    case Arrive(tx) => tx.id !in w.s.seen && tx.id !in w.s.reg.order
    case Redirect(id, clientTS, arrivalTS) =>
      IsTXNew(w.s.reg.mig1Time, arrivalTS) && id !in w.s.seen
    case Detect(n, later) =>
      w.s.firstNew <= 0 && Phase(w.s.fsm) < Phase(SyncOut) && MayPick(w.s.reg, n, later)
    case PackAtSource(k) => k < |w.s.pool| && !(w.s.pool[k].sends && w.s.pool[k].id in w.s.paused)
    case Leave(k) => k < |w.s.pool|
    case Commit(id) => id in w.s.seen && !InPool(w.s.pool, id)
    case EndSourceBlock => w.s.syncNeeded && w.s.fsm == PauseOld && PrefixDone(w.s)
    case DeliverStateIni(applied) => StateIni in w.net
    case PackAtTarget(tx, executed) =>
      !(tx.sends && w.t.fsm == WaitSyncIni && IsTXNew(w.s.reg.mig1Time, tx.requestTime))
    case EndTargetBlock => w.t.fsm == SyncApplied && w.t.pendingSyncAck
    case DeliverAck => AckMsg in w.net
  }

  function Without(pool: seq<Tx>, k: nat): seq<Tx>
    requires k < |pool|
  {
    pool[..k] + pool[k + 1..]
  }

  ghost function Next(w: World, a: Action): World
    requires Enabled(w, a)
  {
    match a
    case Arrive(tx) =>
      w.(s := w.s.(pool := w.s.pool + [tx], seen := w.s.seen + {tx.id}))
    case Redirect(id, clientTS, arrivalTS) =>
      var reg := w.s.reg;
      w.(s := w.s.(reg := reg.(order := reg.order[id := clientTS], arrival := reg.arrival[id := arrivalTS])))
    case Detect(n, later) =>
      w.(s := w.s.(firstNew := n, paused := w.s.paused + later, syncNeeded := true, fsm := PauseOld),
         everPaused := w.everPaused + set tx | tx in w.s.pool && tx.id in later :: tx.id)
    case PackAtSource(k) =>
      var tx := w.s.pool[k];
      w.(s := w.s.(pool := Without(w.s.pool, k),
                   committed := if tx.sends then w.s.committed + {tx.id} else w.s.committed),
         log := w.log + [PackedAtSource(tx, tx.id in w.everPaused)])
    case Leave(k) =>
      w.(s := w.s.(pool := Without(w.s.pool, k)), log := w.log + [LeftSource(w.s.pool[k])])
    case Commit(id) =>
      w.(s := w.s.(committed := w.s.committed + {id}))
    case EndSourceBlock =>
      w.(s := w.s.(fsm := SyncOut), net := w.net + {StateIni},
         log := w.log + [SentStateIni(EarlierOlds(w.s.reg, w.s.firstNew))])
    case DeliverStateIni(applied) =>
      w.(t := if applied then w.t.(fsm := SyncApplied) else w.t, log := w.log + [GotStateIni])
    case PackAtTarget(tx, executed) =>
      w.(t := w.t.(pendingSyncAck := w.t.pendingSyncAck || (executed && NewSend(w, tx))),
         log := w.log + [PackedAtTarget(tx, executed)])
    case EndTargetBlock =>
      w.(t := Target(AckSent, false), net := w.net + {AckMsg}, log := w.log + [SentAck])
    case DeliverAck =>
      w.(s := w.s.(paused := {}, syncNeeded := false, fsm := Active), log := w.log + [GotAck])
  }

  /** A new transaction that the account sends. */
  predicate NewSend(w: World, tx: Tx) {
    tx.sends && IsTXNew(w.s.reg.mig1Time, tx.requestTime)
  }

  /** The worlds in which a migration starts: the registered transactions are the old ones
      of the pool, nothing is picked, and the target waits. */
  ghost predicate Initial(w: World) {
    && (forall i, j :: 0 <= i < j < |w.s.pool| ==> w.s.pool[i].id != w.s.pool[j].id)
    && (forall id :: id in w.s.seen <==> InPool(w.s.pool, id))
    && (forall id :: id in w.s.reg.order ==> id in w.s.seen && !w.s.reg.New(id))
    && w.s.committed == {} && w.s.paused == {} && w.everPaused == {} && w.s.firstNew <= 0 && w.s.fsm == Active
    && w.t == Target(WaitSyncIni, false) && w.net == {} && w.log == []
  }

  /** The world that a sequence of actions leads to, each enabled where it is taken. */
  ghost predicate Reaches(w: World, actions: seq<Action>, u: World) {
    if actions == [] then u == w else
    var front, a := actions[..|actions| - 1], actions[|actions| - 1];
    exists v :: Reaches(w, front, v) && Enabled(v, a) && u == Next(v, a)
  }

  // ---------------------------------------------------------------------------
  // What holds in every world

  /** The steps of the exchange, as they show in the log. */
  datatype Kind =
    | Sent                       // the state was sent
    | Got                        // it was received
    | RanNew(mig1Time: int)      // the target executed a new transaction of the account
    | AckOut                      // the ack was sent
    | AckBack                    // it was received
    | Gone(id: int)              // a transaction left the source pool

  predicate Is(e: Event, k: Kind) {
    match k
    case Sent => e.SentStateIni?
    case Got => e.GotStateIni?
    case RanNew(mig1Time) => e.PackedAtTarget? && e.executed && e.tx.sends && IsTXNew(mig1Time, e.tx.requestTime)
    case AckOut => e.SentAck?
    case AckBack => e.GotAck?
    case Gone(id) => (e.PackedAtSource? || e.LeftSource?) && e.tx.id == id
  }

  /** A step of this kind is among the first n events. */
  ghost predicate Happened(log: seq<Event>, n: nat, k: Kind)
    requires n <= |log|
  {
    exists j :: 0 <= j < n && Is(log[j], k)
  }

  /** What must have happened before event e. */
  ghost predicate Justified(log: seq<Event>, n: nat, e: Event, mig1Time: int)
    requires n <= |log|
  {
    match e
    case SentStateIni(prefix) => forall id :: id in prefix ==> Happened(log, n, Gone(id))
    case GotStateIni => Happened(log, n, Sent)
    case PackedAtTarget(tx, executed) => tx.sends && IsTXNew(mig1Time, tx.requestTime) ==> Happened(log, n, Got)
    case SentAck => Happened(log, n, RanNew(mig1Time))
    case GotAck => Happened(log, n, AckOut)
    case PackedAtSource(tx, wasPaused) => tx.sends && wasPaused ==> Happened(log, n, AckBack)
    case LeftSource(tx) => true
  }

  ghost predicate Caused(log: seq<Event>, mig1Time: int) {
    forall i :: 0 <= i < |log| ==> Justified(log, i, log[i], mig1Time)
  }

  lemma HappenedBefore(log: seq<Event>, e: Event, n: nat, k: Kind)
    requires n <= |log|
    ensures Happened(log + [e], n, k) <==> Happened(log, n, k)
    ensures Happened(log + [e], |log| + 1, k) <==> Happened(log, |log|, k) || Is(e, k)
  {
    var more := log + [e];
    assert forall j :: 0 <= j < |log| ==> more[j] == log[j];
    if Is(e, k) { assert Is(more[|log|], k); }
    if j :| 0 <= j < |log| && Is(log[j], k) { assert Is(more[j], k); }
    if j :| 0 <= j < n && Is(log[j], k) { assert Is(more[j], k); }
    if j :| 0 <= j < n && Is(more[j], k) { assert Is(log[j], k); }
    if j :| 0 <= j <= |log| && Is(more[j], k) { assert j == |log| || Is(log[j], k); }
  }

  lemma CausedGrows(log: seq<Event>, e: Event, mig1Time: int)
    requires Caused(log, mig1Time) && Justified(log, |log|, e, mig1Time)
    ensures Caused(log + [e], mig1Time)
  {
    hide Happened;
    forall i, k | 0 <= i <= |log| ensures Happened(log + [e], i, k) <==> Happened(log, i, k) {
      HappenedBefore(log, e, i, k);
    }
    forall i | 0 <= i <= |log| ensures Justified(log + [e], i, (log + [e])[i], mig1Time) {
      if i < |log| {
        assert Justified(log, i, log[i], mig1Time);
      } else {
        assert (log + [e])[i] == e;
      }
    }
  }

  /** Everything the pool has seen is in it or has left it; what is committed has left. */
  ghost predicate Accounted(w: World) {
    && (forall i, j :: 0 <= i < j < |w.s.pool| ==> w.s.pool[i].id != w.s.pool[j].id)
    && (forall tx :: tx in w.s.pool ==> tx.id in w.s.seen)
    && (forall id :: id in w.s.seen ==> InPool(w.s.pool, id) || Happened(w.log, |w.log|, Gone(id)))
    && (forall id :: id in w.s.committed ==> id in w.s.seen && !InPool(w.s.pool, id))
    && (forall id :: id in w.s.reg.order && !w.s.reg.New(id) ==> id in w.s.seen)
  }

  /** What the present state says about the log. */
  ghost predicate Witnessed(w: World) {
    && (StateIni in w.net ==> Happened(w.log, |w.log|, Sent))
    && (w.t.fsm != WaitSyncIni ==> Happened(w.log, |w.log|, Got))
    && (w.t.pendingSyncAck ==> Happened(w.log, |w.log|, RanNew(w.s.reg.mig1Time)))
    && (AckMsg in w.net ==> Happened(w.log, |w.log|, AckOut))
    && (forall id :: id in w.everPaused ==> id in w.s.paused || Happened(w.log, |w.log|, AckBack))
  }

  ghost predicate Inv(w: World) {
    Accounted(w) && Caused(w.log, w.s.reg.mig1Time) && Witnessed(w)
  }

  lemma InitialInv(w: World)
    requires Initial(w)
    ensures Inv(w)
  {
    hide Happened;
    forall tx | tx in w.s.pool ensures tx.id in w.s.seen { assert InPool(w.s.pool, tx.id); }
  }

  /** The event of an action, if it shows. */
  ghost function Shown(w: World, a: Action): seq<Event>
    requires Enabled(w, a)
  {
    match a
    case PackAtSource(k) => [PackedAtSource(w.s.pool[k], w.s.pool[k].id in w.everPaused)]
    case Leave(k) => [LeftSource(w.s.pool[k])]
    case EndSourceBlock => [SentStateIni(EarlierOlds(w.s.reg, w.s.firstNew))]
    case DeliverStateIni(_) => [GotStateIni]
    case PackAtTarget(tx, executed) => [PackedAtTarget(tx, executed)]
    case EndTargetBlock => [SentAck]
    case DeliverAck => [GotAck]
    case _ => []
  }

  /** The log only grows, so what has happened stays so. */
  lemma LogGrows(w: World, a: Action)
    requires Enabled(w, a)
    ensures
      var u := Next(w, a);
      && u.log == w.log + Shown(w, a)
      && forall k :: Happened(u.log, |u.log|, k) <==>
           Happened(w.log, |w.log|, k) || (Shown(w, a) != [] && Is(Shown(w, a)[0], k))
  {
    hide Happened;
    var u := Next(w, a);
    if Shown(w, a) != [] {
      forall k ensures Happened(u.log, |u.log|, k) <==> Happened(w.log, |w.log|, k) || Is(Shown(w, a)[0], k) {
        HappenedBefore(w.log, Shown(w, a)[0], |w.log|, k);
      }
    } else {
      assert w.log + [] == w.log;
    }
  }

  lemma Removed(pool: seq<Tx>, k: nat)
    requires k < |pool| && forall i, j :: 0 <= i < j < |pool| ==> pool[i].id != pool[j].id
    ensures forall id :: InPool(Without(pool, k), id) <==> InPool(pool, id) && id != pool[k].id
    ensures forall i, j :: 0 <= i < j < |Without(pool, k)| ==> Without(pool, k)[i].id != Without(pool, k)[j].id
    ensures forall tx :: tx in Without(pool, k) ==> tx in pool
  {
  }

  lemma ArrivalAccounted(w: World, a: Action)
    requires Accounted(w) && Enabled(w, a) && a.Arrive?
    ensures Accounted(Next(w, a))
  {
  }

  lemma RemovalAccounted(w: World, a: Action)
    requires Accounted(w) && Enabled(w, a) && (a.PackAtSource? || a.Leave?)
    ensures Accounted(Next(w, a))
  {
    hide Happened, InPool, Without;
    LogGrows(w, a);
    Removed(w.s.pool, a.k);
    assert w.s.pool[a.k] in w.s.pool;
  }

  lemma AccountedStays(w: World, a: Action)
    requires Accounted(w) && Enabled(w, a)
    ensures Accounted(Next(w, a))
  {
    hide Happened, PrefixDone, InPool;
    if a.Arrive? {
      ArrivalAccounted(w, a);
    } else if a.PackAtSource? || a.Leave? {
      RemovalAccounted(w, a);
    } else {
      LogGrows(w, a);
    }
  }

  lemma WitnessedStays(w: World, a: Action)
    requires Witnessed(w) && Enabled(w, a)
    ensures Witnessed(Next(w, a))
  {
    hide Happened, PrefixDone, MayPick;
    LogGrows(w, a);
  }

  lemma ShownJustified(w: World, a: Action)
    requires Inv(w) && Enabled(w, a) && Shown(w, a) != []
    ensures Justified(w.log, |w.log|, Shown(w, a)[0], w.s.reg.mig1Time)
  {
    hide Happened, Caused;
  }

  lemma InvStays(w: World, a: Action)
    requires Inv(w) && Enabled(w, a)
    ensures Inv(Next(w, a)) && Next(w, a).s.reg.mig1Time == w.s.reg.mig1Time
  {
    hide Happened, Caused, Accounted, Witnessed, Enabled, Justified;
    AccountedStays(w, a);
    WitnessedStays(w, a);
    LogGrows(w, a);
    if Shown(w, a) != [] {
      ShownJustified(w, a);
      CausedGrows(w.log, Shown(w, a)[0], w.s.reg.mig1Time);
    }
  }

  lemma {:induction false} InvHolds(w: World, actions: seq<Action>, u: World)
    requires Initial(w) && Reaches(w, actions, u)
    ensures Inv(u) && u.s.reg.mig1Time == w.s.reg.mig1Time
  {
    hide Initial, Inv, Next, Enabled;
    if actions == [] {
      InitialInv(w);
    } else {
      var front, a := actions[..|actions| - 1], actions[|actions| - 1];
      var v :| Reaches(w, front, v) && Enabled(v, a) && u == Next(v, a);
      InvHolds(w, front, v);
      InvStays(v, a);
    }
  }

  // ---------------------------------------------------------------------------
  // Order safety

  lemma Cause(log: seq<Event>, n: nat, k: Kind) returns (j: nat)
    requires n <= |log| && Happened(log, n, k)
    ensures j < n && Is(log[j], k)
  {
    j :| 0 <= j < n && Is(log[j], k);
  }

  /** The state leaves the source only after every registered old transaction before the
      picked one has left the pool. */
  lemma StateAfterPrefix(w: World, actions: seq<Action>, u: World, i: nat, id: int) returns (j: nat)
    requires Initial(w) && Reaches(w, actions, u)
    requires i < |u.log| && u.log[i].SentStateIni? && id in u.log[i].prefix
    ensures j < i && Is(u.log[j], Gone(id))
  {
    hide Initial, Reaches, Accounted, Witnessed;
    InvHolds(w, actions, u);
    assert Justified(u.log, i, u.log[i], u.s.reg.mig1Time);
    j := Cause(u.log, i, Gone(id));
  }

  /** No new transaction of the account is packed on the target before the state has come,
      nor before it was sent. */
  lemma NewAfterState(w: World, actions: seq<Action>, u: World, i: nat) returns (sent: nat, got: nat)
    requires Initial(w) && Reaches(w, actions, u)
    requires i < |u.log| && u.log[i].PackedAtTarget? && NewSend(u, u.log[i].tx)
    ensures sent < got < i && u.log[sent].SentStateIni? && u.log[got].GotStateIni?
  {
    hide Initial, Reaches, Accounted, Witnessed;
    InvHolds(w, actions, u);
    assert Justified(u.log, i, u.log[i], u.s.reg.mig1Time);
    got := Cause(u.log, i, Got);
    assert Justified(u.log, got, u.log[got], u.s.reg.mig1Time);
    sent := Cause(u.log, got, Sent);
  }

  /** A paused transaction that the account sends is packed on the source only after the
      ack is back for a new transaction that the target executed; so the old prefix has
      left the source pool before the new transaction runs on the target, and the old suffix
      runs on the source after it. */
  lemma SuffixAfterAck(w: World, actions: seq<Action>, u: World, i: nat)
    returns (sent: nat, got: nat, ran: nat, acked: nat, back: nat)
    requires Initial(w) && Reaches(w, actions, u)
    requires i < |u.log| && u.log[i].PackedAtSource? && u.log[i].wasPaused && u.log[i].tx.sends
    ensures sent < got < ran < acked < back < i
    ensures u.log[sent].SentStateIni? && u.log[got].GotStateIni?
    ensures Is(u.log[ran], RanNew(u.s.reg.mig1Time)) && u.log[acked].SentAck? && u.log[back].GotAck?
    ensures forall id :: id in u.log[sent].prefix ==> Happened(u.log, sent, Gone(id))
  {
    hide Initial, Reaches, Accounted, Witnessed;
    InvHolds(w, actions, u);
    var m := u.s.reg.mig1Time;
    assert Justified(u.log, i, u.log[i], m);
    back := Cause(u.log, i, AckBack);
    assert Justified(u.log, back, u.log[back], m);
    acked := Cause(u.log, back, AckOut);
    assert Justified(u.log, acked, u.log[acked], m);
    ran := Cause(u.log, acked, RanNew(m));
    sent, got := NewAfterState(w, actions, u, ran);
    assert Justified(u.log, sent, u.log[sent], m);
  }

  /** For a paused transaction that the account only receives nothing holds it back: this
      run packs it on the source with no ack, and no state, sent at all. */
  lemma ReceiverNotHeldBack() returns (w: World, actions: seq<Action>, u: World)
    ensures Initial(w) && Reaches(w, actions, u)
    ensures exists i :: 0 <= i < |u.log| && u.log[i].PackedAtSource? && u.log[i].wasPaused && !u.log[i].tx.sends
    ensures !Happened(u.log, |u.log|, AckBack) && !Happened(u.log, |u.log|, Sent)
  {
    hide *;
    var w1, w2;
    w, w1, w2, u := PausedAndPacked();
    actions := [Redirect(2, 20, 200), Detect(2, {3}), PackAtSource(1)];
    NoSteps(w);
    Steps(w, w, w1, [], actions[0]);
    assert [] + [actions[0]] == [actions[0]] && [actions[0]] + [actions[1]] == [actions[0], actions[1]];
    Steps(w, w1, w2, [actions[0]], actions[1]);
    assert [actions[0], actions[1]] + [actions[2]] == actions;
    Steps(w, w2, u, [actions[0], actions[1]], actions[2]);
    NothingSent(u.log, u.log[0].tx);
  }

  lemma NothingSent(log: seq<Event>, tx: Tx)
    requires log == [PackedAtSource(tx, true)]
    ensures !Happened(log, |log|, AckBack) && !Happened(log, |log|, Sent)
  {
  }

  lemma NoSteps(w: World)
    ensures Reaches(w, [], w)
  {
  }

  lemma PausedAndPacked() returns (w: World, w1: World, w2: World, u: World)
    ensures Initial(w)
    ensures Enabled(w, Redirect(2, 20, 200)) && w1 == Next(w, Redirect(2, 20, 200))
    ensures Enabled(w1, Detect(2, {3})) && w2 == Next(w1, Detect(2, {3}))
    ensures Enabled(w2, PackAtSource(1)) && u == Next(w2, PackAtSource(1))
    ensures u.log == [PackedAtSource(Tx(3, false, 60), true)]
  {
    var before, after := Tx(1, true, 50), Tx(3, false, 60);
    var reg := Register(map[1 := 10, 3 := 30], map[1 := 50, 3 := 60], 100);
    w := World(Source([before, after], {1, 3}, reg, {}, 0, {}, Active, true), Target(WaitSyncIni, false), {}, {}, []);
    StartsWithTwo(w, before, after);
    hide Initial;
    w1 := Next(w, Redirect(2, 20, 200));
    w2 := Next(w1, Detect(2, {3}));
    assert 3 in w2.everPaused by { assert after in w1.s.pool && after.id in {3}; }
    u := Next(w2, PackAtSource(1));
  }

  lemma StartsWithTwo(w: World, x: Tx, y: Tx)
    requires x == Tx(1, true, 50) && y == Tx(3, false, 60)
    requires w == World(Source([x, y], {1, 3}, Register(map[1 := 10, 3 := 30], map[1 := 50, 3 := 60], 100), {}, 0, {},
                               Active, true), Target(WaitSyncIni, false), {}, {}, [])
    ensures Initial(w)
  {
    assert x in w.s.pool && y in w.s.pool && x.id == 1 && y.id == 3;
  }

  lemma Steps(w: World, v: World, u: World, front: seq<Action>, a: Action)
    requires Reaches(w, front, v) && Enabled(v, a) && u == Next(v, a)
    ensures Reaches(w, front + [a], u)
  {
    assert (front + [a])[..|front|] == front;
  }

  /** What DetectInterleave picks is among what the detection step allows. */
  lemma PickIsAllowed(r: Register, s: seq<Item>, i: nat)
    requires Lists(s, r.order) && Sorted(s) && FirstAt(r, s, i)
    ensures MayPick(r, s[i + 1].id, ListedOlds(r, s, i + 2))
  {
  }
}
