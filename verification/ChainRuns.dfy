/** Runs of whole blocks. A block holds transfers that the pool has packed, accounts that
    leave, and what has come over the net; committed as a whole it is a sequence of the
    entries of Conservation, so the value of all accounts stays the same over every run of
    blocks. */
module ChainRuns {
  import opened Wrappers
  import opened Conservation
  import opened BlockEntries
  import opened BlockExecution
  import P = TxPool
  import T = Transactions

  // ---------------------------------------------------------------------------
  // The order of the net does not matter

  lemma {:induction false} NetValueAt(net: seq<Msg>, i: nat)
    requires i < |net|
    ensures NetValue(net) == Value(net[i]) + NetValue(Taken(net, i))
  {
    NetTaken(net, i);
  }

  lemma {:induction false} SameNetValue(net: seq<Msg>, other: seq<Msg>)
    requires multiset(net) == multiset(other)
    ensures NetValue(net) == NetValue(other)
    decreases |net|
  {
    if net == [] {
      assert |other| == |multiset(other)| == 0;
    } else {
      var m := net[0];
      assert m in multiset(other);
      var i :| 0 <= i < |other| && other[i] == m;
      TakenIs(net, 0);
      TakenIs(other, i);
      NetValueAt(net, 0);
      NetValueAt(other, i);
      SameNetValue(Taken(net, 0), Taken(other, i));
    }
  }

  /** The same shards, and the same messages in another order. */
  ghost predicate Alike(u: World, v: World) {
    u.shards == v.shards && multiset(u.net) == multiset(v.net)
  }

  lemma AlikeTotal(u: World, v: World)
    requires Alike(u, v)
    ensures Total(u) == Total(v)
  {
    SameNetValue(u.net, v.net);
  }

  lemma AlikeInv(u: World, v: World, phases: map<string, Phase>)
    requires Alike(u, v) && Inv(u, phases)
    ensures Inv(v, phases)
  {
    forall m ensures m in u.net <==> m in v.net {
      assert m in multiset(u.net) <==> m in multiset(v.net);
    }
    forall a | a in phases ensures In(v, a, phases[a]) {
      assert In(u, a, phases[a]);
    }
  }

  // ---------------------------------------------------------------------------
  // Entries as actions

  /** The message for which an entry runs. */
  function Received(self: nat, op: Op): Option<Msg> {
    match op
    case OpMig2(a, value) => Some(Mig2(a, value, self))
    case OpTx(tx) => if tx.isRelay then Some(Relay(tx.recipient, tx.value)) else None
    case OpMig1(_, _) => None
    case OpAnn(a, owner) => Some(Announced(a, owner, self))
    case OpNs(a, change) => Some(Change(a, change, self))
  }

  function Bag(m: Option<Msg>): multiset<Msg> {
    if m.Some? then multiset{m.value} else multiset{}
  }

  function AllReceived(self: nat, ops: seq<Op>): multiset<Msg> {
    if ops == [] then multiset{} else
    AllReceived(self, ops[..|ops| - 1]) + Bag(Received(self, ops[|ops| - 1]))
  }

  lemma OneMoreReceived(self: nat, front: seq<Op>, op: Op)
    ensures AllReceived(self, front + [op]) == AllReceived(self, front) + Bag(Received(self, op))
  {
    hide Received, Bag;
    assert (front + [op])[..|front|] == front;
  }

  /** What an entry needs of the shards and the net, but for its message. */
  ghost predicate Fits(w: World, self: nat, op: Op)
    requires self < |w.shards|
  {
    match op
    case OpTx(tx) =>
      if tx.isRelay then Live(w.shards[self], self, tx.recipient) else Live(w.shards[self], self, tx.sender)
    case OpMig1(a, target) =>
      Live(w.shards[self], self, a) && 0 <= target < |w.shards| && target != self && Clear(w, a, target)
    case _ => true
  }

  /** The world after some entries on a shard, with the messages in any order. */
  ghost predicate Ran(w: World, self: nat, ops: seq<Op>, u: World)
    requires self < |w.shards|
  {
    var (k, sent) := Run(self, |w.shards|, w.shards[self], ops);
    && u.shards == w.shards[self := k]
    && AllReceived(self, ops) <= multiset(w.net)
    && multiset(u.net) == multiset(w.net) - AllReceived(self, ops) + multiset(sent)
  }

  lemma ActionFor(v: World, self: nat, op: Op) returns (act: Action)
    requires self < |v.shards| && Fits(v, self, op)
    requires Received(self, op).Some? ==> Received(self, op).value in v.net
    ensures act.self == self && act.op == op && Enabled(v, act)
    ensures act.taken.Some? <==> Received(self, op).Some?
    ensures act.taken.Some? ==> act.taken.value < |v.net| && v.net[act.taken.value] == Received(self, op).value
  {
    if Received(self, op).Some? {
      var i: nat :| i < |v.net| && v.net[i] == Received(self, op).value;
      act := Act(self, op, Some(i));
    } else {
      act := Act(self, op, None);
    }
  }

  lemma RanOneMore(w: World, self: nat, front: seq<Op>, op: Op, v: World, act: Action)
    requires self < |w.shards| && Ran(w, self, front, v) && AllReceived(self, front + [op]) <= multiset(w.net)
    requires act.self == self && act.op == op
    requires act.taken.Some? <==> Received(self, op).Some?
    requires act.taken.Some? ==> act.taken.value < |v.net| && v.net[act.taken.value] == Received(self, op).value
    ensures Ran(w, self, front + [op], Next(v, act))
  {
    hide Apply, Run, AllReceived, Received;
    var u, n := Next(v, act), |w.shards|;
    OneMoreOp(self, n, w.shards[self], front + [op], front, op);
    OneMoreReceived(self, front, op);
    var more := Apply(self, n, v.shards[self], op).1;
    if act.taken.Some? {
      TakenIs(v.net, act.taken.value);
      assert u.net == Taken(v.net, act.taken.value) + more;
    } else {
      assert u.net == v.net + more;
    }
    BagOneMore(multiset(w.net), AllReceived(self, front), AllReceived(self, front + [op]) - AllReceived(self, front),
               multiset(Run(self, n, w.shards[self], front).1), multiset(more));
  }

  lemma BagOneMore<M>(net: multiset<M>, taken: multiset<M>, now: multiset<M>, sent: multiset<M>, more: multiset<M>)
    requires taken + now <= net
    ensures net - taken + sent - now + more == net - (taken + now) + (sent + more)
  {
  }

  /** Entries that fit one after the other are a run of actions. */
  lemma {:induction false} EntriesRun(w: World, self: nat, ops: seq<Op>) returns (acts: seq<Action>, u: World)
    requires self < |w.shards| && AllReceived(self, ops) <= multiset(w.net)
    requires forall i, v :: 0 <= i < |ops| && Ran(w, self, ops[..i], v) ==> Fits(v, self, ops[i])
    ensures Reaches(w, acts, u) && Ran(w, self, ops, u)
  {
    hide Fits, Reaches, Run, Next;
    if ops == [] {
      acts, u := [], w;
      NothingRan(w, self);
    } else {
      var front, op := ops[..|ops| - 1], ops[|ops| - 1];
      assert ops == front + [op];
      OneMoreReceived(self, front, op);
      forall i, v | 0 <= i < |front| && Ran(w, self, front[..i], v) ensures Fits(v, self, front[i]) {
        assert front[..i] == ops[..i] && front[i] == ops[i];
      }
      var before, v := EntriesRun(w, self, front);
      assert ops[..|front|] == front && Fits(v, self, op);
      MessageLeft(w, self, front, op, v);
      var act := ActionFor(v, self, op);
      RanOneMore(w, self, front, op, v, act);
      ReachesMore(w, before, v, act);
      acts, u := before + [act], Next(v, act);
    }
  }

  lemma NothingRan(w: World, self: nat)
    requires self < |w.shards|
    ensures Ran(w, self, [], w) && Reaches(w, [], w)
  {
    assert w.shards[self := w.shards[self]] == w.shards;
  }

  lemma MessageLeft(w: World, self: nat, front: seq<Op>, op: Op, v: World)
    requires self < |w.shards| && Ran(w, self, front, v) && AllReceived(self, front + [op]) <= multiset(w.net)
    ensures Received(self, op).Some? ==> Received(self, op).value in v.net
  {
    OneMoreReceived(self, front, op);
    if Received(self, op).Some? {
      assert Received(self, op).value in multiset(v.net);
    }
  }

  // ---------------------------------------------------------------------------
  // A block as a run of actions

  /** The accounts that live on a shard. */
  function OwnOf(w: World, self: nat): set<string>
    requires self < |w.shards|
  {
    set a | a in w.shards[self].accts && w.shards[self].accts[a].location == self
  }

  /** What a block on a shard holds: messages of the net, each for one entry; transfers of
      its accounts and of those that arrive, and relays to them; and accounts of the shard
      that leave once, for another shard, when the way is clear. */
  ghost predicate Holdable(w: World, self: nat, b: Block) {
    self < |w.shards|
    && var own := OwnOf(w, self);
       && AllReceived(self, Ops(b)) <= multiset(w.net)
       && (forall tx :: tx in b.txs ==> (if tx.isRelay then tx.recipient else tx.sender) in own + ArrivedOf(b.mig2s))
       && (forall x :: x in b.mig1s ==>
             x.address in own && x.address !in ArrivedOf(b.mig2s) && 0 <= x.target < |w.shards| && x.target != self
             && Clear(w, x.address, x.target))
       && forall i, j :: 0 <= i < j < |b.mig1s| ==> b.mig1s[i].address != b.mig1s[j].address
  }

  lemma OwnsOf(w: World, self: nat)
    requires self < |w.shards|
    ensures Owns(self, w.shards[self], OwnOf(w, self))
  {
  }

  /** The entries before and at a place of a block. */
  lemma OpAt(b: Block, i: nat)
    requires i < |Ops(b)|
    ensures
      var ops, m, t, o := Ops(b), |b.mig2s|, |b.txs|, |b.mig1s|;
      && (m <= i < m + t ==> ops[i] == OpTx(b.txs[i - m]) && ops[..i] == Mig2Ops(b.mig2s) + TxOps(b.txs[..i - m]))
      && (m + t <= i < m + t + o ==>
            ops[i] == OpMig1(b.mig1s[i - m - t].address, b.mig1s[i - m - t].target)
            && ops[..i] == Mig2Ops(b.mig2s) + TxOps(b.txs) + Mig1Ops(b.mig1s[..i - m - t]))
      && (i < m || m + t + o <= i ==> !ops[i].OpTx? && !ops[i].OpMig1?)
  {
  }

  lemma {:induction false} AnnouncementsAbout(self: nat, n: nat, xs: seq<MigIn>, a: string)
    requires a !in ArrivedOf(xs)
    ensures forall m :: m in AnnouncementsOf(self, n, xs) ==> !About(m, a)
  {
    if xs != [] {
      var front, x := xs[..|xs| - 1], xs[|xs| - 1];
      assert xs == front + [x] && x in xs && forall y :: y in front ==> y in xs;
      AnnouncementsAbout(self, n, front, a);
      AnnouncementsAreFree(x.address, self, n);
    }
  }

  lemma {:induction false} RelaysAbout(own: set<string>, txs: seq<Tx>, a: string)
    ensures forall m :: m in RelaysOf(own, txs) ==> !About(m, a)
  {
    if txs != [] { RelaysAbout(own, txs[..|txs| - 1], a); }
  }

  lemma {:induction false} Mig2sAbout(l: Local, xs: seq<MigOut>, a: string)
    requires forall x :: x in xs ==> x.address != a
    ensures forall m :: m in Mig2sOf(l, xs) ==> !About(m, a)
  {
    if xs != [] {
      assert xs[|xs| - 1] in xs && forall x :: x in xs[..|xs| - 1] ==> x in xs;
      Mig2sAbout(l, xs[..|xs| - 1], a);
    }
  }

  /** The shard before a transfer of the block. */
  lemma BeforeTx(self: nat, n: nat, l: Local, b: Block, own: set<string>, j: nat)
    requires Owns(self, l, own) && j <= |b.txs|
    requires forall tx :: tx in b.txs && !tx.isRelay ==> tx.sender in own + ArrivedOf(b.mig2s)
    ensures
      var (k, sent) := Run(self, n, l, Mig2Ops(b.mig2s) + TxOps(b.txs[..j]));
      Owns(self, k, own + ArrivedOf(b.mig2s))
      && sent == AnnouncementsOf(self, n, b.mig2s) + RelaysOf(own + ArrivedOf(b.mig2s), b.txs[..j])
  {
    hide Run, Apply, Owns, ArrivedOf, RelaysOf, AnnouncementsOf, Mig2Ops, TxOps;
    RunJoined(self, n, l, Mig2Ops(b.mig2s), TxOps(b.txs[..j]));
    Mig2sRun(self, n, l, b.mig2s, own);
    TxsRun(self, n, Run(self, n, l, Mig2Ops(b.mig2s)).0, b.txs[..j], own + ArrivedOf(b.mig2s));
  }

  /** Before an account leaves, nothing has been sent about it by the block. */
  lemma BeforeMig1(self: nat, n: nat, l: Local, b: Block, own: set<string>, j: nat, a: string)
    requires Owns(self, l, own) && j <= |b.mig1s| && a in own && a !in ArrivedOf(b.mig2s)
    requires forall tx :: tx in b.txs && !tx.isRelay ==> tx.sender in own + ArrivedOf(b.mig2s)
    requires forall x :: x in b.mig1s[..j] ==> x.address != a
    ensures
      var (k, sent) := Run(self, n, l, Mig2Ops(b.mig2s) + TxOps(b.txs) + Mig1Ops(b.mig1s[..j]));
      Live(k, self, a) && forall m :: m in sent ==> !About(m, a)
  {
    hide Run, Apply, ArrivedOf, RelaysOf, AnnouncementsOf, Mig2sOf, BalancesOut, Mig2Ops, TxOps, Mig1Ops;
    var here, before := own + ArrivedOf(b.mig2s), Mig2Ops(b.mig2s) + TxOps(b.txs);
    assert b.txs[..|b.txs|] == b.txs;
    BeforeTx(self, n, l, b, own, |b.txs|);
    var paid := Run(self, n, l, before).0;
    RunJoined(self, n, l, before, Mig1Ops(b.mig1s[..j]));
    Mig1sRun(self, n, paid, b.mig1s[..j]);
    AnnouncementsAbout(self, n, b.mig2s, a);
    RelaysAbout(here, b.txs, a);
    Mig2sAbout(paid, b.mig1s[..j], a);
  }

  lemma StillClear(w: World, self: nat, ops: seq<Op>, v: World, a: string, target: int)
    requires self < |w.shards| && Ran(w, self, ops, v) && Clear(w, a, target)
    requires Live(w.shards[self], self, a)
    requires forall m :: m in Run(self, |w.shards|, w.shards[self], ops).1 ==> !About(m, a)
    ensures Clear(v, a, target)
  {
    hide Run, AllReceived;
    var sent := Run(self, |w.shards|, w.shards[self], ops).1;
    forall m | m in v.net && About(m, a) ensures m in w.net {
      assert m in multiset(v.net) && m !in multiset(sent);
    }
    assert LiveAt(w, self, a);
  }

  lemma Mig1sDiffer(b: Block, j: nat)
    requires j < |b.mig1s| && forall i, k :: 0 <= i < k < |b.mig1s| ==> b.mig1s[i].address != b.mig1s[k].address
    ensures forall x :: x in b.mig1s[..j] ==> x.address != b.mig1s[j].address
  {
  }

  /** Every entry of a block fits when its turn comes. */
  lemma EntryFits(w: World, self: nat, b: Block, i: nat, v: World)
    requires Holdable(w, self, b) && i < |Ops(b)| && Ran(w, self, Ops(b)[..i], v)
    ensures Fits(v, self, Ops(b)[i])
  {
    hide Run, ArrivedOf, RelaysOf, AnnouncementsOf, Mig2sOf, OwnOf, AllReceived, Ops, Mig2Ops, TxOps, Mig1Ops, Clear;
    var own, n, l := OwnOf(w, self), |w.shards|, w.shards[self];
    var m, t, o := |b.mig2s|, |b.txs|, |b.mig1s|;
    OwnsOf(w, self);
    OpAt(b, i);
    if m <= i < m + t {
      BeforeTx(self, n, l, b, own, i - m);
      assert b.txs[i - m] in b.txs;
    } else if m + t <= i < m + t + o {
      var x := b.mig1s[i - m - t];
      assert x in b.mig1s;
      Mig1sDiffer(b, i - m - t);
      BeforeMig1(self, n, l, b, own, i - m - t, x.address);
      StillClear(w, self, Ops(b)[..i], v, x.address, x.target);
    }
  }

  /** The world after a block: its shard and its messages are as CommitBlock says. */
  ghost predicate Commits(w: World, self: nat, b: Block, u: World) {
    Holdable(w, self, b) && Ran(w, self, Ops(b), u)
  }

  /** A shard that executes and commits a block takes the world there. */
  method CommitOn(chain: ShardChain, ghost w: World, b: Block) returns (sent: seq<Msg>)
    requires chain.Valid() && WellFormed(chain.self, chain.own, b) && Holdable(w, chain.self, b)
    requires chain.shards == |w.shards| && w.shards[chain.self] == chain.State()
    modifies chain
    ensures chain.Valid()
    ensures forall u: World ::
              u.shards == w.shards[chain.self := chain.State()]
              && multiset(u.net) == multiset(w.net) - AllReceived(chain.self, Ops(b)) + multiset(sent)
              ==> Commits(w, chain.self, b, u)
  {
    hide Run, Owns, Ops, AllReceived;
    sent := chain.CommitBlock(b);
  }

  /** A block keeps the total, and every account in some phase. */
  lemma BlockKeeps(w: World, self: nat, b: Block, u: World, phases: map<string, Phase>)
    returns (next: map<string, Phase>)
    requires Inv(w, phases) && Commits(w, self, b, u)
    ensures Inv(u, next) && next.Keys == phases.Keys && Total(u) == Total(w)
  {
    hide Inv, Total, Reaches, Ops, Fits, AllReceived, Run;
    forall i, v | 0 <= i < |Ops(b)| && Ran(w, self, Ops(b)[..i], v) ensures Fits(v, self, Ops(b)[i]) {
      EntryFits(w, self, b, i, v);
    }
    var acts, v := EntriesRun(w, self, Ops(b));
    next := InvHolds(w, phases, acts, v);
    AlikeInv(v, u, next);
    AlikeTotal(v, u);
  }

  // ---------------------------------------------------------------------------
  // Runs of blocks

  ghost predicate Chains(w: World, blocks: seq<(nat, Block)>, u: World) {
    if blocks == [] then u == w else
    var front, last := blocks[..|blocks| - 1], blocks[|blocks| - 1];
    exists v :: Chains(w, front, v) && Commits(v, last.0, last.1, u)
  }

  lemma {:induction false} ChainsKeep(w: World, start: map<string, Phase>, blocks: seq<(nat, Block)>, u: World)
    returns (phases: map<string, Phase>)
    requires Inv(w, start) && Chains(w, blocks, u)
    ensures Inv(u, phases) && phases.Keys == start.Keys && Total(u) == Total(w)
  {
    hide Inv, Total, Commits;
    if blocks == [] {
      phases := start;
    } else {
      var front, last := blocks[..|blocks| - 1], blocks[|blocks| - 1];
      var v :| Chains(w, front, v) && Commits(v, last.0, last.1, u);
      var before := ChainsKeep(w, start, front, v);
      phases := BlockKeeps(v, last.0, last.1, u, before);
    }
  }

  /** Over every run of blocks on all shards, in which messages are received in any order,
      what the accounts really have, with the transfers on their way, stays what it was. */
  lemma ChainsConserve(w: World, homes: map<string, int>, blocks: seq<(nat, Block)>, u: World)
    returns (phases: map<string, Phase>)
    requires Initial(w, homes) && Chains(w, blocks, u)
    ensures phases.Keys == homes.Keys && Inv(u, phases) && Total(u) == Total(w)
    ensures
      var start := map a | a in homes :: Settled(homes[a]);
      Sum(AllAuthoritative(u, phases)) + Relayed(u.net) == Sum(AllAuthoritative(w, start)) + Relayed(w.net)
  {
    var start := map a | a in homes :: Settled(homes[a]);
    InitialInv(w, homes, start);
    hide Sum, In, Chains, Authoritative, Inv, Initial, Total;
    phases := ChainsKeep(w, start, blocks, u);
    TotalIsAuthoritative(w, start);
    TotalIsAuthoritative(u, phases);
  }

  // ---------------------------------------------------------------------------
  // What the pool packs may be held

  function TxOf(tx: T.Transaction): Tx {
    Tx(tx.sender, tx.recipient, tx.value, tx.Relayed())
  }

  /** Without MVSS the pool packs transfers whose senders, and relays whose recipients, are
      of the shard. */
  lemma PackedIsHoldable(e: P.Env, queue: seq<T.Transaction>, room: nat, b: Block)
    requires !e.mvss
    requires forall tx :: tx in b.txs ==> exists x :: x in P.Picked(queue, P.PackDests(e, queue, room), P.Pack)
                                                     && tx == TxOf(x)
    ensures forall tx :: tx in b.txs ==> (if tx.isRelay then tx.recipient else tx.sender) in e.own
  {
    hide P.PackDests, P.Picked;
    forall tx | tx in b.txs ensures (if tx.isRelay then tx.recipient else tx.sender) in e.own {
      var x :| x in P.Picked(queue, P.PackDests(e, queue, room), P.Pack) && tx == TxOf(x);
      P.PickedDest(e, queue, room, x);
    }
  }
}
