/** The entries of a block, run one by one: what each part of a block comes to, for the state
    tree of chain/blockchain.go and for what pbft/pbftsingle.go and pbft/handleanns.go send. */
module BlockEntries {
  import opened Conservation
  import opened Transactions

  datatype MigIn = MigIn(address: string, value: int)
  datatype MigOut = MigOut(address: string, target: int)
  datatype Ns = Ns(address: string, change: int)
  datatype Block = Block(mig2s: seq<MigIn>, txs: seq<Tx>, mig1s: seq<MigOut>, anns: seq<Ann>, nss: seq<Ns>)

  function Mig2Ops(xs: seq<MigIn>): seq<Op> {
    seq(|xs|, i requires 0 <= i < |xs| => OpMig2(xs[i].address, xs[i].value))
  }

  function TxOps(xs: seq<Tx>): seq<Op> {
    seq(|xs|, i requires 0 <= i < |xs| => OpTx(xs[i]))
  }

  function Mig1Ops(xs: seq<MigOut>): seq<Op> {
    seq(|xs|, i requires 0 <= i < |xs| => OpMig1(xs[i].address, xs[i].target))
  }

  function AnnOps(xs: seq<Ann>): seq<Op> {
    seq(|xs|, i requires 0 <= i < |xs| => OpAnn(xs[i].address, xs[i].toShard))
  }

  function NsOps(xs: seq<Ns>): seq<Op> {
    seq(|xs|, i requires 0 <= i < |xs| => OpNs(xs[i].address, xs[i].change))
  }

  /** The entries of a block in their order. */
  function Ops(b: Block): seq<Op> {
    Mig2Ops(b.mig2s) + TxOps(b.txs) + Mig1Ops(b.mig1s) + AnnOps(b.anns) + NsOps(b.nss)
  }

  /** The entries run one by one. */
  function Run(self: nat, n: nat, l: Local, ops: seq<Op>): (Local, seq<Msg>) {
    if ops == [] then (l, []) else
    var (k, sent) := Run(self, n, l, ops[..|ops| - 1]);
    var (m, more) := Apply(self, n, k, ops[|ops| - 1]);
    (m, sent + more)
  }

  lemma {:induction false} RunJoined(self: nat, n: nat, l: Local, ops: seq<Op>, more: seq<Op>)
    ensures
      var (k, sent) := Run(self, n, l, ops);
      var (m, rest) := Run(self, n, k, more);
      Run(self, n, l, ops + more) == (m, sent + rest)
  {
    hide Apply;
    if more == [] {
      assert ops + more == ops && Run(self, n, l, ops).1 + [] == Run(self, n, l, ops).1;
    } else {
      var front := more[..|more| - 1];
      RunJoined(self, n, l, ops, front);
      assert (ops + more)[..|ops + more| - 1] == ops + front;
      var (k, sent) := Run(self, n, l, ops);
      var (m, rest) := Run(self, n, k, front);
      var last := Apply(self, n, m, more[|more| - 1]).1;
      assert (sent + rest) + last == sent + (rest + last);
    }
  }

  lemma OneMoreOp(self: nat, n: nat, l: Local, ops: seq<Op>, front: seq<Op>, op: Op)
    requires ops == front + [op]
    ensures
      var (k, sent) := Run(self, n, l, front);
      var (m, more) := Apply(self, n, k, op);
      Run(self, n, l, ops) == (m, sent + more)
  {
    hide Apply;
    assert ops[..|ops| - 1] == front;
  }

  /** The accounts of this shard. */
  ghost predicate Owns(self: nat, l: Local, own: set<string>) {
    forall a :: a in own <==> Live(l, self, a)
  }

  // ---------------------------------------------------------------------------
  // What each part of a block sends

  function AnnouncementsOf(self: nat, n: nat, xs: seq<MigIn>): seq<Msg> {
    if xs == [] then [] else
    AnnouncementsOf(self, n, xs[..|xs| - 1]) + Announcements(xs[|xs| - 1].address, self, n)
  }

  function RelaysOf(own: set<string>, txs: seq<Tx>): seq<Msg> {
    if txs == [] then [] else
    var tx := txs[|txs| - 1];
    RelaysOf(own, txs[..|txs| - 1]) + if tx.recipient in own || tx.isRelay then [] else [Relay(tx.recipient, tx.value)]
  }

  function BalancesOut(l: Local, xs: seq<MigOut>): map<string, int> {
    if xs == [] then map[] else
    BalancesOut(l, xs[..|xs| - 1])[xs[|xs| - 1].address := Get(l, xs[|xs| - 1].address).balance]
  }

  function Mig2sOf(l: Local, xs: seq<MigOut>): seq<Msg> {
    if xs == [] then [] else
    var x := xs[|xs| - 1];
    Mig2sOf(l, xs[..|xs| - 1]) + [Mig2(x.address, Get(l, x.address).balance, x.target)]
  }

  function Relocated(accts: map<string, Acct>, xs: seq<Ann>): map<string, Acct> {
    if xs == [] then accts else
    var m, x := Relocated(accts, xs[..|xs| - 1]), xs[|xs| - 1];
    m[x.address := (if x.address in m then m[x.address] else Acct(0, -1)).(location := x.toShard)]
  }

  /** The announced accounts of this shard. */
  function GoneOf(own: set<string>, xs: seq<Ann>): set<string> {
    set x | x in xs && x.address in own :: x.address
  }

  function ChangesOf(own: set<string>, l: Local, xs: seq<Ann>): seq<Msg> {
    if xs == [] then [] else
    var front, x := ChangesOf(own, l, xs[..|xs| - 1]), xs[|xs| - 1];
    var change := Get(l, x.address).balance - BeforeOf(l, x.address);
    if x.address in own && change != 0 then front + [Change(x.address, change, x.toShard)] else front
  }

  function ArrivedOf(xs: seq<MigIn>): set<string> {
    set x | x in xs :: x.address
  }

  lemma Mig2Owns(self: nat, n: nat, l: Local, x: MigIn, own: set<string>)
    requires Owns(self, l, own)
    ensures
      var (k, sent) := Apply(self, n, l, OpMig2(x.address, x.value));
      Owns(self, k, own + {x.address}) && k.before == l.before && sent == Announcements(x.address, self, n)
  {
  }

  lemma {:induction false} Mig2sRun(self: nat, n: nat, l: Local, xs: seq<MigIn>, own: set<string>)
    requires Owns(self, l, own)
    ensures
      var (k, sent) := Run(self, n, l, Mig2Ops(xs));
      sent == AnnouncementsOf(self, n, xs) && k.before == l.before && Owns(self, k, own + ArrivedOf(xs))
  {
    hide Apply, Owns;
    if xs == [] {
      assert own + ArrivedOf(xs) == own;
    } else {
      var front, x := xs[..|xs| - 1], xs[|xs| - 1];
      Mig2sRun(self, n, l, front, own);
      OneMoreOp(self, n, l, Mig2Ops(xs), Mig2Ops(front), OpMig2(x.address, x.value));
      Mig2Owns(self, n, Run(self, n, l, Mig2Ops(front)).0, x, own + ArrivedOf(front));
      assert xs == front + [x];
      assert own + ArrivedOf(xs) == own + ArrivedOf(front) + {x.address};
    }
  }

  lemma {:induction false} TxsRun(self: nat, n: nat, l: Local, xs: seq<Tx>, own: set<string>)
    requires Owns(self, l, own) && forall tx :: tx in xs && !tx.isRelay ==> tx.sender in own
    ensures Run(self, n, l, TxOps(xs)).1 == RelaysOf(own, xs)
    ensures Run(self, n, l, TxOps(xs)).0.before == l.before
    ensures Owns(self, Run(self, n, l, TxOps(xs)).0, own)
  {
    if xs != [] {
      var front, x := xs[..|xs| - 1], xs[|xs| - 1];
      assert xs == front + [x];
      TxsRun(self, n, l, front, own);
      OneMoreOp(self, n, l, TxOps(xs), TxOps(front), OpTx(x));
    }
  }

  lemma Mig1Records(self: nat, n: nat, l: Local, out: map<string, int>, x: MigOut)
    ensures
      var k := l.(before := l.before + out);
      var balance := Get(l, x.address).balance;
      Apply(self, n, k, OpMig1(x.address, x.target)) ==
        (l.(before := l.before + out[x.address := balance]), [Mig2(x.address, balance, x.target)])
  {
    var balance := Get(l, x.address).balance;
    assert (l.before + out)[x.address := balance] == l.before + out[x.address := balance];
  }

  lemma {:induction false} Mig1sRun(self: nat, n: nat, l: Local, xs: seq<MigOut>)
    ensures
      var (k, sent) := Run(self, n, l, Mig1Ops(xs));
      k == l.(before := l.before + BalancesOut(l, xs)) && sent == Mig2sOf(l, xs)
  {
    hide Apply;
    if xs == [] {
      assert l.before + map[] == l.before;
    } else {
      var front, x := xs[..|xs| - 1], xs[|xs| - 1];
      Mig1sRun(self, n, l, front);
      OneMoreOp(self, n, l, Mig1Ops(xs), Mig1Ops(front), OpMig1(x.address, x.target));
      Mig1Records(self, n, l, BalancesOut(l, front), x);
    }
  }

  /** Where the shard is after some announcements. */
  ghost predicate AfterAnns(self: nat, l: Local, xs: seq<Ann>, own: set<string>, k: Local) {
    && k == Local(Relocated(l.accts, xs), l.before - GoneOf(own, xs))
    && Owns(self, k, own - GoneOf(own, xs))
    && forall a :: (forall x :: x in xs ==> x.address != a) ==>
         Get(k, a) == Get(l, a) && BeforeOf(k, a) == BeforeOf(l, a)
  }

  lemma OwnsIs(self: nat, l: Local, own: set<string>, a: string)
    requires Owns(self, l, own)
    ensures a in own <==> Live(l, self, a)
  {
  }

  lemma AnnState(self: nat, n: nat, l: Local, xs: seq<Ann>, own: set<string>, k: Local, x: Ann)
    requires k == Local(Relocated(l.accts, xs), l.before - GoneOf(own, xs))
    requires x.address in own - GoneOf(own, xs) <==> Live(k, self, x.address)
    ensures
      Apply(self, n, k, OpAnn(x.address, x.toShard)).0 ==
      Local(Relocated(l.accts, xs + [x]), l.before - (GoneOf(own, xs) + if x.address in own then {x.address} else {}))
  {
  }

  lemma OthersStay(self: nat, n: nat, k: Local, x: Ann, a: string)
    requires a != x.address
    ensures
      var m := Apply(self, n, k, OpAnn(x.address, x.toShard)).0;
      Get(m, a) == Get(k, a) && BeforeOf(m, a) == BeforeOf(k, a)
  {
  }

  lemma AnnGoes(self: nat, n: nat, l: Local, xs: seq<Ann>, own: set<string>, k: Local, x: Ann)
    requires AfterAnns(self, l, xs, own, k) && x.toShard != self && forall y :: y in xs ==> y.address != x.address
    ensures
      var (m, sent) := Apply(self, n, k, OpAnn(x.address, x.toShard));
      var change := Get(l, x.address).balance - BeforeOf(l, x.address);
      && AfterAnns(self, l, xs + [x], own, m)
      && sent == if x.address in own && change != 0 then [Change(x.address, change, x.toShard)] else []
  {
    hide Owns, Relocated, GoneOf;
    var m := Apply(self, n, k, OpAnn(x.address, x.toShard)).0;
    NotGone(own, xs, x.address);
    OwnsIs(self, k, own - GoneOf(own, xs), x.address);
    GoneGrows(own, xs, x);
    AnnState(self, n, l, xs, own, k, x);
    AnnOwns(self, n, k, own - GoneOf(own, xs), x);
    assert own - GoneOf(own, xs + [x]) == own - GoneOf(own, xs) - {x.address} by { NotOwned(own, xs, x.address); }
    forall a | forall y :: y in xs + [x] ==> y.address != a
      ensures Get(m, a) == Get(l, a) && BeforeOf(m, a) == BeforeOf(l, a)
    {
      assert x in xs + [x] && forall y :: y in xs ==> y in xs + [x];
      OthersStay(self, n, k, x, a);
    }
  }

  lemma NotGone(own: set<string>, xs: seq<Ann>, a: string)
    requires forall y :: y in xs ==> y.address != a
    ensures a !in GoneOf(own, xs)
  {
  }

  lemma NotOwned(own: set<string>, xs: seq<Ann>, a: string)
    ensures a !in own ==> own - GoneOf(own, xs) - {a} == own - GoneOf(own, xs)
  {
  }

  lemma AnnOwns(self: nat, n: nat, l: Local, own: set<string>, x: Ann)
    requires Owns(self, l, own) && x.toShard != self
    ensures Owns(self, Apply(self, n, l, OpAnn(x.address, x.toShard)).0, own - {x.address})
  {
  }

  lemma GoneGrows(own: set<string>, xs: seq<Ann>, x: Ann)
    ensures GoneOf(own, xs + [x]) == GoneOf(own, xs) + if x.address in own then {x.address} else {}
  {
    assert forall y :: y in xs + [x] <==> y in xs || y == x;
  }

  ghost predicate DistinctAnns(xs: seq<Ann>) {
    forall i, j :: 0 <= i < j < |xs| ==> xs[i].address != xs[j].address
  }

  lemma {:induction false} AnnsRun(self: nat, n: nat, l: Local, xs: seq<Ann>, own: set<string>)
    requires Owns(self, l, own) && DistinctAnns(xs) && forall x :: x in xs ==> x.toShard != self
    ensures
      var (k, sent) := Run(self, n, l, AnnOps(xs));
      AfterAnns(self, l, xs, own, k) && sent == ChangesOf(own, l, xs)
  {
    hide Apply, AfterAnns;
    if xs == [] {
      NoAnns(self, l, own);
    } else {
      var front, x := xs[..|xs| - 1], xs[|xs| - 1];
      assert xs == front + [x];
      AnnsRun(self, n, l, front, own);
      OneMoreOp(self, n, l, AnnOps(xs), AnnOps(front), OpAnn(x.address, x.toShard));
      AnnGoes(self, n, l, front, own, Run(self, n, l, AnnOps(front)).0, x);
    }
  }

  lemma NoAnns(self: nat, l: Local, own: set<string>)
    requires Owns(self, l, own)
    ensures AfterAnns(self, l, [], own, l)
  {
    assert own - GoneOf(own, []) == own && l.before - GoneOf(own, []) == l.before;
  }

  lemma {:induction false} NssRun(self: nat, n: nat, l: Local, xs: seq<Ns>, own: set<string>)
    requires Owns(self, l, own)
    ensures
      var (k, sent) := Run(self, n, l, NsOps(xs));
      && sent == [] && k.before == l.before && Owns(self, k, own)
      && forall a :: (forall x :: x in xs ==> x.address != a) ==> Get(k, a) == Get(l, a)
  {
    if xs != [] {
      var front, x := xs[..|xs| - 1], xs[|xs| - 1];
      assert xs == front + [x];
      NssRun(self, n, l, front, own);
      OneMoreOp(self, n, l, NsOps(xs), NsOps(front), OpNs(x.address, x.change));
    }
  }

  // ---------------------------------------------------------------------------
  // The whole block, part by part

  /** The state after each part of a block. */
  datatype Parts = Parts(arrived: Local, paid: Local, recorded: Local, moved: Local, settled: Local)

  function PartsOf(self: nat, n: nat, l: Local, b: Block): Parts {
    var arrived := Run(self, n, l, Mig2Ops(b.mig2s)).0;
    var paid := Run(self, n, arrived, TxOps(b.txs)).0;
    var recorded := Run(self, n, paid, Mig1Ops(b.mig1s)).0;
    var moved := Run(self, n, recorded, AnnOps(b.anns)).0;
    Parts(arrived, paid, recorded, moved, Run(self, n, moved, NsOps(b.nss)).0)
  }

  lemma BlockRuns(self: nat, n: nat, l: Local, b: Block)
    ensures
      var p := PartsOf(self, n, l, b);
      Run(self, n, l, Ops(b)) ==
      (p.settled, Run(self, n, l, Mig2Ops(b.mig2s)).1 + Run(self, n, p.arrived, TxOps(b.txs)).1
                  + Run(self, n, p.paid, Mig1Ops(b.mig1s)).1 + Run(self, n, p.recorded, AnnOps(b.anns)).1
                  + Run(self, n, p.moved, NsOps(b.nss)).1)
  {
    hide Run, Mig2Ops, TxOps, Mig1Ops, AnnOps, NsOps;
    var m, t, o, a, c := Mig2Ops(b.mig2s), TxOps(b.txs), Mig1Ops(b.mig1s), AnnOps(b.anns), NsOps(b.nss);
    RunJoined(self, n, l, m, t);
    RunJoined(self, n, l, m + t, o);
    RunJoined(self, n, l, m + t + o, a);
    RunJoined(self, n, l, m + t + o + a, c);
  }

  /** What a block may hold: a transfer that is no relay is sent by an account of the shard,
      and an account is announced once, for another shard, without a change of its balance
      in the same block. */
  ghost predicate WellFormed(self: nat, own: set<string>, b: Block) {
    && (forall tx :: tx in b.txs && !tx.isRelay ==> tx.sender in own + ArrivedOf(b.mig2s))
    && DistinctAnns(b.anns) && (forall x :: x in b.anns ==> x.toShard != self)
    && forall x, y :: x in b.anns && y in b.nss ==> x.address != y.address
  }

  lemma {:induction false} RelocatedBalance(accts: map<string, Acct>, xs: seq<Ann>, before: map<string, int>, a: string)
    ensures Get(Local(Relocated(accts, xs), before), a).balance == Get(Local(accts, before), a).balance
  {
    if xs != [] { RelocatedBalance(accts, xs[..|xs| - 1], before, a); }
  }

  lemma {:induction false} NssByAccts(self: nat, n: nat, l: Local, k: Local, xs: seq<Ns>)
    requires l.accts == k.accts
    ensures Run(self, n, l, NsOps(xs)).0.accts == Run(self, n, k, NsOps(xs)).0.accts
  {
    if xs != [] {
      var front, x := xs[..|xs| - 1], xs[|xs| - 1];
      NssByAccts(self, n, l, k, front);
      OneMoreOp(self, n, l, NsOps(xs), NsOps(front), OpNs(x.address, x.change));
      OneMoreOp(self, n, k, NsOps(xs), NsOps(front), OpNs(x.address, x.change));
    }
  }

  /** Everything the entries do and send, one by one, in terms of the block as a whole. */
  lemma BlockComesTo(self: nat, n: nat, l: Local, own: set<string>, b: Block)
    requires Owns(self, l, own) && WellFormed(self, own, b)
    ensures
      var p, here := PartsOf(self, n, l, b), own + ArrivedOf(b.mig2s);
      var out := BalancesOut(p.paid, b.mig1s);
      && DistinctAnns(b.anns) && p.arrived.before == p.paid.before == l.before
      && Owns(self, p.arrived, here) && Owns(self, p.settled, here - GoneOf(here, b.anns))
      && p.settled.accts == Run(self, n, Local(Relocated(p.paid.accts, b.anns), l.before), NsOps(b.nss)).0.accts
      && p.settled.before == (l.before + out) - GoneOf(here, b.anns)
      && (forall x :: x in b.anns ==> Get(p.settled, x.address).balance == Get(p.recorded, x.address).balance)
      && p.recorded == Local(p.paid.accts, l.before + out)
      && Run(self, n, l, Ops(b)) ==
         (p.settled, AnnouncementsOf(self, n, b.mig2s) + RelaysOf(here, b.txs) + Mig2sOf(p.paid, b.mig1s)
                     + ChangesOf(here, p.recorded, b.anns))
  {
    hide Run, Mig2Ops, TxOps, Mig1Ops, AnnOps, NsOps, Apply, Owns, BalancesOut, Relocated, GoneOf, ArrivedOf, Get,
         ChangesOf, RelaysOf, AnnouncementsOf, Mig2sOf;
    var p, here := PartsOf(self, n, l, b), own + ArrivedOf(b.mig2s);
    BlockRuns(self, n, l, b);
    Mig2sRun(self, n, l, b.mig2s, own);
    TxsRun(self, n, p.arrived, b.txs, here);
    Mig1sRun(self, n, p.paid, b.mig1s);
    OwnsByAccts(self, p.paid, p.recorded, here);
    AnnsRun(self, n, p.recorded, b.anns, here);
    NssRun(self, n, p.moved, b.nss, here - GoneOf(here, b.anns));
    NssByAccts(self, n, p.moved, Local(Relocated(p.paid.accts, b.anns), l.before), b.nss);
    var sent := AnnouncementsOf(self, n, b.mig2s) + RelaysOf(here, b.txs) + Mig2sOf(p.paid, b.mig1s)
                + ChangesOf(here, p.recorded, b.anns);
    assert sent + [] == sent;
    forall x | x in b.anns ensures Get(p.settled, x.address).balance == Get(p.recorded, x.address).balance {
      RelocatedBalance(p.recorded.accts, b.anns, p.moved.before, x.address);
      GetByAccts(p.recorded, Local(p.recorded.accts, p.moved.before), x.address);
    }
  }

  lemma OwnsByAccts(self: nat, l: Local, k: Local, own: set<string>)
    requires Owns(self, l, own) && k.accts == l.accts
    ensures Owns(self, k, own)
  {
  }

  lemma GetByAccts(l: Local, k: Local, a: string)
    requires k.accts == l.accts
    ensures Get(l, a) == Get(k, a)
  {
  }
}
