/** What a block does to each account and what it sends, entry by entry of the block: who
    pays, who is paid, who moves. The statements count and add up the entries themselves. */
module Ledger {
  import opened BlockEntries
  import opened Conservation
  import opened Transactions
  import opened Wrappers

  // ---------------------------------------------------------------------------
  // Adding up the entries

  /** What an account pays: the values of the transfers it sends that are no relays. */
  function Spent(txs: seq<Tx>, a: string): int {
    if txs == [] then 0 else
    var tx := txs[|txs| - 1];
    Spent(txs[..|txs| - 1], a) + if !tx.isRelay && tx.sender == a then tx.value else 0
  }

  /** What transfers and relays bring to it. */
  function Gained(txs: seq<Tx>, a: string): int {
    if txs == [] then 0 else
    var tx := txs[|txs| - 1];
    Gained(txs[..|txs| - 1], a) + if tx.recipient == a then tx.value else 0
  }

  function Changed(nss: seq<Ns>, a: string): int {
    if nss == [] then 0 else
    Changed(nss[..|nss| - 1], a) + if nss[|nss| - 1].address == a then nss[|nss| - 1].change else 0
  }

  /** The balance with which it arrives last. */
  function Arriving(mig2s: seq<MigIn>, a: string): Option<int> {
    if mig2s == [] then None else
    var x := mig2s[|mig2s| - 1];
    if x.address == a then Some(x.value) else Arriving(mig2s[..|mig2s| - 1], a)
  }

  /** The shard it is announced for last. */
  function Announcing(anns: seq<Ann>, a: string): Option<int> {
    if anns == [] then None else
    var x := anns[|anns| - 1];
    if x.address == a then Some(x.toShard) else Announcing(anns[..|anns| - 1], a)
  }

  function TimesRelayed(txs: seq<Tx>, own: set<string>, a: string, value: nat): nat {
    if txs == [] then 0 else
    var tx := txs[|txs| - 1];
    TimesRelayed(txs[..|txs| - 1], own, a, value)
    + if !tx.isRelay && tx.recipient !in own && tx.recipient == a && tx.value == value then 1 else 0
  }

  function TimesLeaving(mig1s: seq<MigOut>, a: string, target: int): nat {
    if mig1s == [] then 0 else
    var x := mig1s[|mig1s| - 1];
    TimesLeaving(mig1s[..|mig1s| - 1], a, target) + if x.address == a && x.target == target then 1 else 0
  }

  ghost predicate Leaves(mig1s: seq<MigOut>, a: string) {
    exists x :: x in mig1s && x.address == a
  }

  function TimesArriving(mig2s: seq<MigIn>, a: string): nat {
    if mig2s == [] then 0 else
    TimesArriving(mig2s[..|mig2s| - 1], a) + if mig2s[|mig2s| - 1].address == a then 1 else 0
  }

  // ---------------------------------------------------------------------------
  // The ledger of a block

  /** The balance after arrivals and transfers, on a shard where these accounts live. */
  function PaidUp(l: Local, own: set<string>, b: Block, a: string): int {
    var arriving := Arriving(b.mig2s, a);
    (if arriving.Some? then arriving.value else Get(l, a).balance)
    - Spent(b.txs, a) + if a in own || arriving.Some? then Gained(b.txs, a) else 0
  }

  /** What every account has, where it lives, and the balances with which accounts left,
      after the block. */
  ghost predicate Booked(self: nat, l: Local, own: set<string>, b: Block, k: Local) {
    && (forall a :: Get(k, a).balance == PaidUp(l, own, b, a) + Changed(b.nss, a))
    && (forall a :: Get(k, a).location ==
          if Announcing(b.anns, a).Some? then Announcing(b.anns, a).value
          else if Arriving(b.mig2s, a).Some? then self else Get(l, a).location)
    && (forall a :: a in k.before <==>
          && (a in l.before || Leaves(b.mig1s, a))
          && !(Announcing(b.anns, a).Some? && (a in own || Arriving(b.mig2s, a).Some?)))
    && (forall a :: a in k.before ==> k.before[a] == Recorded(l, own, b, a))
  }

  /** The balance on record for an account: the one it leaves with in this block, or the
      one it had left with. */
  ghost function Recorded(l: Local, own: set<string>, b: Block, a: string): int {
    if Leaves(b.mig1s, a) then PaidUp(l, own, b, a) else BeforeOf(l, a)
  }

  /** How often each message is sent. */
  ghost function TimesSent(self: nat, n: nat, l: Local, own: set<string>, b: Block, m: Msg): nat {
    match m
    case Relay(a, value) => TimesRelayed(b.txs, own + ArrivedOf(b.mig2s), a, value)
    case Mig2(a, balance, target) =>
      if balance == PaidUp(l, own, b, a) then TimesLeaving(b.mig1s, a, target) else 0
    case Announced(a, owner, dest) =>
      if owner == self && 0 <= dest < n && dest != self then TimesArriving(b.mig2s, a) else 0
    case Change(a, change, owner) =>
      if (a in own || Arriving(b.mig2s, a).Some?) && Announcing(b.anns, a) == Some(owner)
         && change == PaidUp(l, own, b, a) - Recorded(l, own, b, a) && change != 0
      then 1 else 0
  }

  // ---------------------------------------------------------------------------
  // The entries one by one

  lemma {:induction false} Arrivals(self: nat, n: nat, l: Local, xs: seq<MigIn>)
    ensures
      var k := Run(self, n, l, Mig2Ops(xs)).0;
      && k.before == l.before
      && forall a :: Get(k, a) == if Arriving(xs, a).Some? then Acct(Arriving(xs, a).value, self) else Get(l, a)
  {
    if xs != [] {
      var front, x := xs[..|xs| - 1], xs[|xs| - 1];
      Arrivals(self, n, l, front);
      OneMoreOp(self, n, l, Mig2Ops(xs), Mig2Ops(front), OpMig2(x.address, x.value));
    }
  }

  lemma TransferBooked(self: nat, n: nat, l: Local, tx: Tx)
    ensures
      var k := Apply(self, n, l, OpTx(tx)).0;
      && k.before == l.before
      && forall a ::
           && Get(k, a).location == Get(l, a).location
           && Get(k, a).balance == Get(l, a).balance - (if !tx.isRelay && tx.sender == a then tx.value else 0)
                                   + if tx.recipient == a && Get(l, a).location == self then tx.value else 0
  {
  }

  /** After some transfers each account has what it had, without what it has spent, and with
      what it has gained if it lives on the shard. */
  lemma {:induction false} TransfersBooked(self: nat, n: nat, l: Local, txs: seq<Tx>)
    ensures
      var k := Run(self, n, l, TxOps(txs)).0;
      && k.before == l.before
      && forall a ::
           && Get(k, a).location == Get(l, a).location
           && Get(k, a).balance == Get(l, a).balance - Spent(txs, a)
                                   + if Get(l, a).location == self then Gained(txs, a) else 0
  {
    hide Apply, Get;
    if txs != [] {
      var front, tx := txs[..|txs| - 1], txs[|txs| - 1];
      TransfersBooked(self, n, l, front);
      TransferBooked(self, n, Run(self, n, l, TxOps(front)).0, tx);
      OneMoreOp(self, n, l, TxOps(txs), TxOps(front), OpTx(tx));
    }
  }

  lemma {:induction false} ChangesBooked(self: nat, n: nat, l: Local, nss: seq<Ns>)
    ensures
      var k := Run(self, n, l, NsOps(nss)).0;
      && k.before == l.before
      && forall a :: Get(k, a) == Get(l, a).(balance := Get(l, a).balance + Changed(nss, a))
  {
    if nss != [] {
      var front, x := nss[..|nss| - 1], nss[|nss| - 1];
      ChangesBooked(self, n, l, front);
      OneMoreOp(self, n, l, NsOps(nss), NsOps(front), OpNs(x.address, x.change));
    }
  }

  lemma {:induction false} MovesBooked(accts: map<string, Acct>, xs: seq<Ann>, before: map<string, int>)
    ensures forall a ::
              Get(Local(Relocated(accts, xs), before), a) ==
              if Announcing(xs, a).Some? then Get(Local(accts, before), a).(location := Announcing(xs, a).value)
              else Get(Local(accts, before), a)
  {
    if xs != [] { MovesBooked(accts, xs[..|xs| - 1], before); }
  }

  lemma {:induction false} ArrivedIs(mig2s: seq<MigIn>, a: string)
    ensures a in ArrivedOf(mig2s) <==> Arriving(mig2s, a).Some?
  {
    if mig2s != [] {
      var front, x := mig2s[..|mig2s| - 1], mig2s[|mig2s| - 1];
      ArrivedIs(front, a);
      assert mig2s == front + [x];
    }
  }

  lemma {:induction false} GoneIs(own: set<string>, anns: seq<Ann>, a: string)
    ensures a in GoneOf(own, anns) <==> a in own && Announcing(anns, a).Some?
  {
    if anns != [] {
      var front, x := anns[..|anns| - 1], anns[|anns| - 1];
      GoneIs(own, front, a);
      assert anns == front + [x];
      GoneGrows(own, front, x);
    }
  }

  lemma {:induction false} OutIs(l: Local, mig1s: seq<MigOut>, a: string)
    ensures a in BalancesOut(l, mig1s) <==> Leaves(mig1s, a)
    ensures a in BalancesOut(l, mig1s) ==> BalancesOut(l, mig1s)[a] == Get(l, a).balance
  {
    if mig1s != [] {
      var front, x := mig1s[..|mig1s| - 1], mig1s[|mig1s| - 1];
      OutIs(l, front, a);
      assert mig1s == front + [x];
    }
  }

  // ---------------------------------------------------------------------------
  // Messages, counted

  lemma OneMoreSent(sent: seq<Msg>, x: Msg, m: Msg)
    ensures multiset(sent + [x])[m] == multiset(sent)[m] + if m == x then 1 else 0
  {
  }

  lemma NextShard(a: string, owner: int, n: nat, m: Msg)
    requires n > 0
    ensures multiset(Announcements(a, owner, n))[m] ==
            multiset(Announcements(a, owner, n - 1))[m]
            + if n - 1 != owner && m == Announced(a, owner, n - 1) then 1 else 0
  {
    var front := Announcements(a, owner, n - 1);
    if n - 1 == owner {
      assert front + [] == front;
    } else {
      OneMoreSent(front, Announced(a, owner, n - 1), m);
    }
  }

  lemma {:induction false} AnnouncedOnce(a: string, owner: int, n: nat, m: Msg)
    ensures multiset(Announcements(a, owner, n))[m] ==
            if m.Announced? && m.address == a && m.owner == owner && 0 <= m.dest < n && m.dest != owner then 1 else 0
  {
    if n > 0 {
      AnnouncedOnce(a, owner, n - 1, m);
      NextShard(a, owner, n, m);
    }
  }

  lemma {:induction false} AnnouncementsCounted(self: nat, n: nat, mig2s: seq<MigIn>, m: Msg)
    ensures multiset(AnnouncementsOf(self, n, mig2s))[m] ==
            if m.Announced? && m.owner == self && 0 <= m.dest < n && m.dest != self then TimesArriving(mig2s, m.address)
            else 0
  {
    if mig2s != [] {
      AnnouncementsCounted(self, n, mig2s[..|mig2s| - 1], m);
      AnnouncedOnce(mig2s[|mig2s| - 1].address, self, n, m);
    }
  }

  lemma {:induction false} RelaysCounted(own: set<string>, txs: seq<Tx>, m: Msg)
    ensures multiset(RelaysOf(own, txs))[m] == if m.Relay? then TimesRelayed(txs, own, m.recipient, m.value) else 0
  {
    if txs != [] { RelaysCounted(own, txs[..|txs| - 1], m); }
  }

  lemma {:induction false} Mig2sCounted(l: Local, mig1s: seq<MigOut>, m: Msg)
    ensures multiset(Mig2sOf(l, mig1s))[m] ==
            if m.Mig2? && m.balance == Get(l, m.address).balance then TimesLeaving(mig1s, m.address, m.target) else 0
  {
    if mig1s != [] { Mig2sCounted(l, mig1s[..|mig1s| - 1], m); }
  }

  lemma {:induction false} ChangesCounted(own: set<string>, l: Local, anns: seq<Ann>, m: Msg)
    requires DistinctAnns(anns)
    ensures multiset(ChangesOf(own, l, anns))[m] ==
            if m.Change? && m.address in own && Announcing(anns, m.address) == Some(m.target) && m.change != 0
               && m.change == Get(l, m.address).balance - BeforeOf(l, m.address)
            then 1 else 0
  {
    if anns != [] {
      var front, x := anns[..|anns| - 1], anns[|anns| - 1];
      ChangesCounted(own, l, front, m);
      NotYet(front, x);
    }
  }

  lemma {:induction false} NotYet(front: seq<Ann>, x: Ann)
    requires forall i :: 0 <= i < |front| ==> front[i].address != x.address
    ensures Announcing(front, x.address) == None
  {
    if front != [] { NotYet(front[..|front| - 1], x); }
  }

  // ---------------------------------------------------------------------------
  // The whole block

  lemma PaidUpIs(self: nat, n: nat, l: Local, own: set<string>, b: Block, a: string)
    requires Owns(self, l, own)
    ensures
      var k := PartsOf(self, n, l, b).paid;
      && Get(k, a).balance == PaidUp(l, own, b, a)
      && Get(k, a).location == if Arriving(b.mig2s, a).Some? then self else Get(l, a).location
  {
    hide Run, TxOps, Mig2Ops;
    Arrivals(self, n, l, b.mig2s);
    TransfersBooked(self, n, PartsOf(self, n, l, b).arrived, b.txs);
  }

  lemma RecordedIs(self: nat, n: nat, l: Local, own: set<string>, b: Block, a: string)
    requires Owns(self, l, own) && WellFormed(self, own, b)
    ensures BeforeOf(PartsOf(self, n, l, b).recorded, a) == Recorded(l, own, b, a)
    ensures a in PartsOf(self, n, l, b).recorded.before <==>
            a in l.before || Leaves(b.mig1s, a)
  {
    hide Run, PartsOf, Owns, WellFormed, TimesLeaving, BalancesOut, Get, PaidUp, Ops, Relocated, GoneOf, ArrivedOf,
         AnnouncementsOf, RelaysOf, Mig2sOf, ChangesOf;
    BlockComesTo(self, n, l, own, b);
    OutIs(PartsOf(self, n, l, b).paid, b.mig1s, a);
    PaidUpIs(self, n, l, own, b, a);
  }

  /** What the entries of a block, run one by one, leave behind is what the ledger says. */
  lemma BlockBooked(self: nat, n: nat, l: Local, own: set<string>, b: Block)
    requires Owns(self, l, own) && WellFormed(self, own, b)
    ensures Booked(self, l, own, b, Run(self, n, l, Ops(b)).0)
  {
    hide Run, PartsOf, Owns, WellFormed, TimesLeaving, BalancesOut, Ops, Relocated, GoneOf, ArrivedOf, PaidUp, Changed,
         AnnouncementsOf, RelaysOf, Mig2sOf, ChangesOf, Arriving, Announcing, Recorded, Get, NsOps;
    var p, here, k := PartsOf(self, n, l, b), own + ArrivedOf(b.mig2s), Run(self, n, l, Ops(b)).0;
    BlockComesTo(self, n, l, own, b);
    var moved := Local(Relocated(p.paid.accts, b.anns), l.before);
    ChangesBooked(self, n, moved, b.nss);
    MovesBooked(p.paid.accts, b.anns, l.before);
    forall a
      ensures Get(k, a).balance == PaidUp(l, own, b, a) + Changed(b.nss, a)
      ensures Get(k, a).location ==
              if Announcing(b.anns, a).Some? then Announcing(b.anns, a).value
              else if Arriving(b.mig2s, a).Some? then self else Get(l, a).location
      ensures a in k.before <==>
              && (a in l.before || Leaves(b.mig1s, a))
              && !(Announcing(b.anns, a).Some? && (a in own || Arriving(b.mig2s, a).Some?))
      ensures a in k.before ==> k.before[a] == Recorded(l, own, b, a)
    {
      GetByAccts(k, Run(self, n, moved, NsOps(b.nss)).0, a);
      GetByAccts(p.paid, Local(p.paid.accts, l.before), a);
      PaidUpIs(self, n, l, own, b, a);
      ArrivedIs(b.mig2s, a);
      GoneIs(here, b.anns, a);
      RecordedIs(self, n, l, own, b, a);
    }
  }

  lemma MessageCounted(self: nat, n: nat, l: Local, own: set<string>, b: Block, m: Msg)
    requires Owns(self, l, own) && WellFormed(self, own, b)
    ensures multiset(Run(self, n, l, Ops(b)).1)[m] == TimesSent(self, n, l, own, b, m)
  {
    hide Run, PartsOf, Owns, WellFormed, TimesLeaving, TimesArriving, TimesRelayed, BalancesOut, Ops, Relocated, GoneOf,
         ArrivedOf, PaidUp, AnnouncementsOf, RelaysOf, Mig2sOf, ChangesOf, Arriving, Announcing, Recorded, Get;
    var p, here := PartsOf(self, n, l, b), own + ArrivedOf(b.mig2s);
    BlockComesTo(self, n, l, own, b);
    AnnouncementsCounted(self, n, b.mig2s, m);
    RelaysCounted(here, b.txs, m);
    Mig2sCounted(p.paid, b.mig1s, m);
    ChangesCounted(here, p.recorded, b.anns, m);
    if m.Mig2? || m.Change? {
      PaidUpIs(self, n, l, own, b, m.address);
      RecordedIs(self, n, l, own, b, m.address);
      GetByAccts(p.recorded, p.paid, m.address);
      ArrivedIs(b.mig2s, m.address);
    }
  }
}
