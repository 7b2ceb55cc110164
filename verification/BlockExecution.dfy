/** How a shard executes and commits a block: chain/blockchain.go changes the state tree
    entry by entry, pbft/pbftsingle.go and pbft/handleanns.go then record balances and send
    what follows, all at once at the end. It comes to the same as running the entries one
    by one. */
module BlockExecution {
  import opened BlockEntries
  import opened Conservation
  import opened Ledger
  import opened Transactions
  import opened Wrappers

  class ShardChain {
    const self: nat
    const shards: nat
    var accts: map<string, Acct>
    var own: set<string>
    var balanceBeforeOut: map<string, int>

    function State(): Local
      reads this`accts, this`balanceBeforeOut
    {
      Local(accts, balanceBeforeOut)
    }

    ghost predicate Valid()
      reads this
    {
      Owns(self, State(), own)
    }

    constructor (self: nat, shards: nat, accts: map<string, Acct>)
      ensures Valid() && State() == Local(accts, map[]) && this.self == self && this.shards == shards
    {
      this.self, this.shards, this.accts := self, shards, accts;
      own := set a | a in accts && accts[a].location == self;
      balanceBeforeOut := map[];
    }

    method ExecuteMig2s(xs: seq<MigIn>)
      modifies this`accts
      ensures accts == Run(self, shards, old(State()), Mig2Ops(xs)).0.accts
      ensures Run(self, shards, old(State()), Mig2Ops(xs)).0.before == balanceBeforeOut
    {
      for i := 0 to |xs|
        invariant State() == Run(self, shards, old(State()), Mig2Ops(xs[..i])).0
      {
        OneMoreOp(self, shards, old(State()), Mig2Ops(xs[..i + 1]), Mig2Ops(xs[..i]),
                  OpMig2(xs[i].address, xs[i].value));
        accts := accts[xs[i].address := Acct(xs[i].value, self)];
      }
      assert xs[..|xs|] == xs;
    }

    /** Senders pay; recipients are paid if they live here. */
    method ExecuteTxs(xs: seq<Tx>)
      modifies this`accts
      ensures State() == Run(self, shards, old(State()), TxOps(xs)).0
      ensures forall a :: Get(State(), a).balance ==
                          Get(old(State()), a).balance - Spent(xs, a)
                          + if Get(old(State()), a).location == self then Gained(xs, a) else 0
      ensures forall a :: Get(State(), a).location == Get(old(State()), a).location
    {
      hide Apply, Get;
      TransfersBooked(self, shards, State(), xs);
      for i := 0 to |xs|
        invariant State() == Run(self, shards, old(State()), TxOps(xs[..i])).0
      {
        OneMoreOp(self, shards, old(State()), TxOps(xs[..i + 1]), TxOps(xs[..i]), OpTx(xs[i]));
        ExecuteTx(xs[i]);
      }
      assert xs[..|xs|] == xs;
    }

    method ExecuteTx(tx: Tx)
      modifies this`accts
      ensures State() == Apply(self, shards, old(State()), OpTx(tx)).0
    {
      if !tx.isRelay {
        var sender := Get(State(), tx.sender);
        accts := accts[tx.sender := sender.(balance := sender.balance - tx.value)];
      }
      var recipient := Get(State(), tx.recipient);
      if tx.recipient !in accts || recipient.location != self {
        return;
      }
      accts := accts[tx.recipient := recipient.(balance := recipient.balance + tx.value)];
    }

    method RecordBalances(xs: seq<MigOut>) returns (out: map<string, int>)
      ensures out == BalancesOut(State(), xs)
    {
      out := map[];
      for i := 0 to |xs|
        invariant out == BalancesOut(State(), xs[..i])
      {
        assert xs[..i + 1][..i] == xs[..i];
        out := out[xs[i].address := Get(State(), xs[i].address).balance];
      }
      assert xs[..|xs|] == xs;
    }

    method MoveAnnounced(xs: seq<Ann>)
      modifies this`accts
      ensures accts == Relocated(old(accts), xs)
    {
      for i := 0 to |xs|
        invariant accts == Relocated(old(accts), xs[..i])
      {
        assert xs[..i + 1][..i] == xs[..i];
        accts := accts[xs[i].address := Get(State(), xs[i].address).(location := xs[i].toShard)];
      }
      assert xs[..|xs|] == xs;
    }

    method ApplyChanges(xs: seq<Ns>)
      modifies this`accts
      ensures accts == Run(self, shards, old(State()), NsOps(xs)).0.accts
    {
      hide Apply, Get;
      for i := 0 to |xs|
        invariant State() == Run(self, shards, old(State()), NsOps(xs[..i])).0
      {
        OneMoreOp(self, shards, old(State()), NsOps(xs[..i + 1]), NsOps(xs[..i]), OpNs(xs[i].address, xs[i].change));
        ApplyChange(xs[i]);
      }
      assert xs[..|xs|] == xs;
    }

    method ApplyChange(x: Ns)
      modifies this`accts
      ensures State() == Apply(self, shards, old(State()), OpNs(x.address, x.change)).0
    {
      var acct := Get(State(), x.address);
      accts := accts[x.address := acct.(balance := acct.balance + x.change)];
    }

    /** The transfers whose recipients are not of this shard. */
    method CollectRelays(txs: seq<Tx>) returns (relays: seq<Msg>)
      ensures relays == RelaysOf(own, txs)
    {
      relays := [];
      for i := 0 to |txs|
        invariant relays == RelaysOf(own, txs[..i])
      {
        assert txs[..i + 1][..i] == txs[..i];
        if !txs[i].isRelay && txs[i].recipient !in own {
          relays := relays + [Relay(txs[i].recipient, txs[i].value)];
        }
      }
      assert txs[..|txs|] == txs;
    }

    /** Announced accounts leave the shard. */
    method LeaveShard(xs: seq<Ann>) returns (gone: set<string>)
      modifies this`own
      ensures gone == GoneOf(old(own), xs) && own == old(own) - gone
    {
      gone := {};
      for i := 0 to |xs|
        invariant gone == GoneOf(old(own), xs[..i]) && own == old(own) - gone
      {
        GoneGrows(old(own), xs[..i], xs[i]);
        assert xs[..i + 1] == xs[..i] + [xs[i]];
        if xs[i].address in own {
          own := own - {xs[i].address};
          gone := gone + {xs[i].address};
        }
      }
      assert xs[..|xs|] == xs;
    }

    /** The changes of the balances of the accounts that have gone. */
    method SendChanges(xs: seq<Ann>, gone: set<string>, ghost here: set<string>, ghost l: Local)
      returns (changes: seq<Msg>)
      requires DistinctAnns(xs) && gone == GoneOf(here, xs) && balanceBeforeOut == l.before
      requires forall x :: x in xs ==> Get(State(), x.address).balance == Get(l, x.address).balance
      modifies this`balanceBeforeOut
      ensures changes == ChangesOf(here, l, xs) && balanceBeforeOut == l.before - gone
    {
      changes := [];
      ghost var sent: set<string> := {};
      for i := 0 to |xs|
        invariant changes == ChangesOf(here, l, xs[..i])
        invariant sent == GoneOf(here, xs[..i]) && balanceBeforeOut == l.before - sent
      {
        assert xs[..i + 1][..i] == xs[..i] && xs[..i + 1] == xs[..i] + [xs[i]];
        GoneGrows(here, xs[..i], xs[i]);
        var a := xs[i].address;
        assert xs[i] in xs && Get(State(), a).balance == Get(l, a).balance;
        assert a in gone <==> a in here;
        assert a !in sent;
        if a !in gone {
          continue;
        }
        var change := Get(State(), a).balance - BeforeOf(State(), a);
        balanceBeforeOut := balanceBeforeOut - {a};
        sent := sent + {a};
        if change != 0 {
          changes := changes + [Change(a, change, xs[i].toShard)];
        }
      }
      assert xs[..|xs|] == xs;
    }

    method SendMig2s(xs: seq<MigOut>, out: map<string, int>, ghost l: Local) returns (mig2s: seq<Msg>)
      requires out == BalancesOut(l, xs)
      ensures mig2s == Mig2sOf(l, xs)
    {
      mig2s := [];
      for i := 0 to |xs|
        invariant mig2s == Mig2sOf(l, xs[..i])
      {
        assert xs[..i + 1][..i] == xs[..i];
        BalanceIn(l, xs, i);
        mig2s := mig2s + [Mig2(xs[i].address, out[xs[i].address], xs[i].target)];
      }
      assert xs[..|xs|] == xs;
    }

    method Announce(xs: seq<MigIn>) returns (anns: seq<Msg>)
      ensures anns == AnnouncementsOf(self, shards, xs)
    {
      anns := [];
      for i := 0 to |xs|
        invariant anns == AnnouncementsOf(self, shards, xs[..i])
      {
        assert xs[..i + 1][..i] == xs[..i];
        anns := anns + Announcements(xs[i].address, self, shards);
      }
      assert xs[..|xs|] == xs;
    }

    /** Executes and commits a block: every account is booked, and every message sent, as the
        entries of the block say; so state and messages are those of the entries run one by
        one. */
    method CommitBlock(b: Block) returns (sent: seq<Msg>)
      requires Valid() && WellFormed(self, own, b)
      modifies this
      ensures Valid()
      ensures State() == Run(self, shards, old(State()), Ops(b)).0
      ensures multiset(sent) == multiset(Run(self, shards, old(State()), Ops(b)).1)
      ensures Booked(self, old(State()), old(own), b, State())
      ensures forall m :: multiset(sent)[m] == TimesSent(self, shards, old(State()), old(own), b, m)
      ensures forall a :: a in own <==> (a in old(own) || Arriving(b.mig2s, a).Some?) && Announcing(b.anns, a).None?
    {
      hide Run, Owns, Ops, Mig2Ops, TxOps, Mig1Ops, AnnOps, NsOps, Apply, BalancesOut, Relocated, GoneOf, Get,
           ChangesOf, RelaysOf, AnnouncementsOf, Mig2sOf, WellFormed, Booked, TimesSent, Arriving, Announcing,
           ArrivedOf;
      ghost var l, was := State(), own;
      BlockBooked(self, shards, l, own, b);
      forall m ensures multiset(Run(self, shards, l, Ops(b)).1)[m] == TimesSent(self, shards, l, own, b, m) {
        MessageCounted(self, shards, l, own, b, m);
      }
      ghost var p, here := PartsOf(self, shards, l, b), own + ArrivedOf(b.mig2s);
      BlockComesTo(self, shards, l, own, b);
      own := own + ArrivedOf(b.mig2s);
      ExecuteMig2s(b.mig2s);
      ExecuteTxs(b.txs);
      var out := RecordBalances(b.mig1s);
      MoveAnnounced(b.anns);
      ApplyChanges(b.nss);
      balanceBeforeOut := balanceBeforeOut + out;
      var relays := CollectRelays(b.txs);
      var gone := LeaveShard(b.anns);
      forall x | x in b.anns ensures Get(State(), x.address).balance == Get(p.recorded, x.address).balance {
        GetByAccts(p.settled, State(), x.address);
      }
      var changes := SendChanges(b.anns, gone, here, p.recorded);
      var mig2s := SendMig2s(b.mig1s, out, p.paid);
      var anns := Announce(b.mig2s);
      sent := relays + changes + mig2s + anns;
      OwnsByAccts(self, p.settled, State(), own);
      forall a ensures a in own <==> (a in was || Arriving(b.mig2s, a).Some?) && Announcing(b.anns, a).None? {
        ArrivedIs(b.mig2s, a);
        GoneIs(here, b.anns, a);
      }
    }
  }

  lemma {:induction false} BalanceIn(l: Local, xs: seq<MigOut>, i: nat)
    requires i < |xs|
    ensures xs[i].address in BalancesOut(l, xs)
    ensures BalancesOut(l, xs)[xs[i].address] == Get(l, xs[i].address).balance
    decreases |xs|
  {
    if i < |xs| - 1 {
      assert xs[..|xs| - 1][i] == xs[i];
      BalanceIn(l, xs[..|xs| - 1], i);
    }
  }
}
