/** The promotion of an account's new transactions on the target, and of its paused old ones
    on the source, in pbft/mvss_sync.go, and the nonce checks of chain/blockchain.go that
    both prepare for. */
module Promotion {
  import opened MigCtx
  import opened Selections
  import opened Transactions
  import opened Wrappers

  predicate IsNewOf(tx: Transaction, addr: string, mig1Time: int) {
    tx.sender == addr && IsTXNew(mig1Time, tx.requestTime)
  }

  /** The new transactions that an account sends. */
  function NewOf(addr: string, mig1Time: int): Transaction -> bool {
    tx => IsNewOf(tx, addr, mig1Time)
  }

  function Except(choose: Transaction -> bool): Transaction -> bool {
    tx => !choose(tx)
  }

  /** The same transactions with consecutive nonces. */
  function Numbered(txs: seq<Transaction>, start: nat): seq<Transaction> {
    seq(|txs|, i requires 0 <= i < |txs| => txs[i].(nonce := start + i))
  }

  function Promoted(queue: seq<Transaction>, choose: Transaction -> bool, start: nat): seq<Transaction> {
    Numbered(Filter(queue, choose), start) + Filter(queue, Except(choose))
  }

  /** The queue of a pool and the next nonce that the context of the account gives out. */
  datatype PoolState = PoolState(queue: seq<Transaction>, nextNonce: nat)

  /** The pool after the promotion from a nonce. */
  function Promotes(p: PoolState, addr: string, mig1Time: int, start: nat): PoolState {
    var news := |Filter(p.queue, NewOf(addr, mig1Time))|;
    PoolState(Promoted(p.queue, NewOf(addr, mig1Time), start), if news == 0 then p.nextNonce else start + news)
  }

  lemma NumberedGrows(txs: seq<Transaction>, tx: Transaction, start: nat)
    ensures Numbered(txs + [tx], start) == Numbered(txs, start) + [tx.(nonce := start + |txs|)]
    ensures |Numbered(txs, start)| == |txs|
  {
  }

  /** A target shard's pool and what it knows of the account. */
  class TargetPool {
    var queue: seq<Transaction>
    var nextNonce: nat
    const lastCN: nat
    const mig1Time: int

    constructor (queue: seq<Transaction>, lastCN: nat, mig1Time: int)
      ensures this.queue == queue && this.lastCN == lastCN == nextNonce && this.mig1Time == mig1Time
    {
      this.queue, this.lastCN, this.nextNonce, this.mig1Time := queue, lastCN, lastCN, mig1Time;
    }

    function State(): PoolState
      reads this
    {
      PoolState(queue, nextNonce)
    }

    /** Moves the account's new transactions to the head of the queue, numbered from the
        nonce on the chain. */
    method PromoteMigNewTxsToHead(addr: string, chainNonce: Option<nat>)
      modifies this
      ensures State() == Promotes(old(State()), addr, mig1Time,
                                  if chainNonce.Some? then chainNonce.value else lastCN)
      ensures
        var news := Filter(old(queue), NewOf(addr, mig1Time));
        var start := if chainNonce.Some? then chainNonce.value else lastCN;
        && |queue| == |old(queue)|
        && (forall i :: 0 <= i < |news| ==> queue[i] == news[i].(nonce := start + i))
        && queue[|news|..] == Filter(old(queue), Except(NewOf(addr, mig1Time)))
        && nextNonce == if news == [] then old(nextNonce) else start + |news|
    {
      var next := if chainNonce.Some? then chainNonce.value else lastCN;
      ghost var start := next;
      var head, tail: seq<Transaction> := [], [];
      for i := 0 to |queue|
        invariant queue == old(queue) && nextNonce == old(nextNonce)
        invariant head == Numbered(Filter(queue[..i], NewOf(addr, mig1Time)), start)
        invariant tail == Filter(queue[..i], Except(NewOf(addr, mig1Time)))
        invariant next == start + |head|
      {
        var tx := queue[i];
        assert queue[..i + 1][..i] == queue[..i];
        if IsNewOf(tx, addr, mig1Time) {
          NumberedGrows(Filter(queue[..i], NewOf(addr, mig1Time)), tx, start);
          head := head + [tx.(nonce := next)];
          next := next + 1;
        } else {
          tail := tail + [tx];
        }
      }
      assert queue[..|queue|] == queue;
      SplitSize(queue, NewOf(addr, mig1Time));
      if |head| == 0 {
        NoneChosen(queue, NewOf(addr, mig1Time));
        return;
      }
      queue := head + tail;
      assert queue[|head|..] == tail;
      nextNonce := next;
    }
  }

  lemma {:induction false} SplitSize(queue: seq<Transaction>, choose: Transaction -> bool)
    ensures |Filter(queue, choose)| + |Filter(queue, Except(choose))| == |queue|
  {
    if queue != [] { SplitSize(queue[..|queue| - 1], choose); }
  }

  lemma {:induction false} NoneChosen(queue: seq<Transaction>, choose: Transaction -> bool)
    requires Filter(queue, choose) == []
    ensures Filter(queue, Except(choose)) == queue
  {
    if queue != [] {
      NoneChosen(queue[..|queue| - 1], choose);
      assert queue == queue[..|queue| - 1] + [queue[|queue| - 1]];
    }
  }

  /** The paused and later old transactions that the account sends, which the source packs
      although it no longer owns the account. */
  function SuffixOf(addr: string, ctx: CtxView, selfShard: int): Transaction -> bool {
    (tx: Transaction) =>
      tx.sender == addr && ctx.ShouldSourcePackOutgoing(selfShard, tx.id, tx.OrderTimestamp(), tx.requestTime)
  }

  /** What is promoted on the target came after the migration began; on the source it came
      before, and is paused or not earlier than the new transaction picked. */
  lemma PromotedAre(addr: string, mig1Time: int, ctx: CtxView, selfShard: int, tx: Transaction)
    ensures NewOf(addr, mig1Time)(tx) <==> tx.sender == addr && 0 < mig1Time < tx.requestTime
    ensures SuffixOf(addr, ctx, selfShard)(tx) <==>
              && tx.sender == addr && ctx.targetShard != selfShard
              && (|| tx.id in ctx.pausedTxIDs
                  || (!(0 < ctx.mig1Time < tx.requestTime) && ctx.firstNewTxID > 0 && ctx.firstNewTxID in ctx.orderList
                      && tx.id != ctx.firstNewTxID
                      && ctx.orderList[ctx.firstNewTxID]
                         <= if tx.clientTimestamp > 0 then tx.clientTimestamp else tx.requestTime))
  {
  }

  /** Queue and side pool after those chosen from both have moved to the head of the queue. */
  function SuffixPromoted(queue: seq<Transaction>, side: seq<Transaction>, usesSide: bool,
                          choose: Transaction -> bool, start: nat): (seq<Transaction>, seq<Transaction>)
  {
    var aside := if usesSide then side else [];
    (Numbered(Filter(queue, choose) + Filter(aside, choose), start) + Filter(queue, Except(choose)),
     if usesSide then Filter(side, Except(choose)) else side)
  }

  /** The source shard's pool: its queue, and the side pool of the account. */
  class SourcePool {
    var queue: seq<Transaction>
    var side: seq<Transaction>
    const usesSide: bool
    const lastCN: nat

    constructor (queue: seq<Transaction>, side: seq<Transaction>, usesSide: bool, lastCN: nat)
      ensures this.queue == queue && this.side == side && this.usesSide == usesSide && this.lastCN == lastCN
    {
      this.queue, this.side, this.usesSide, this.lastCN := queue, side, usesSide, lastCN;
    }

    /** After the ack the old suffix moves to the head of the queue, out of the side pool
        too, numbered from the nonce of the account; nothing moves before a new transaction
        was picked. */
    method PromoteSuffixOldAfterAck(addr: string, ctx: CtxView, selfShard: int, stateNonce: Option<nat>)
      modifies this
      ensures ctx.firstNewTxID <= 0 ==> unchanged(this)
      ensures ctx.firstNewTxID > 0 ==>
                (queue, side) == SuffixPromoted(old(queue), old(side), usesSide, SuffixOf(addr, ctx, selfShard),
                                                if stateNonce.Some? then stateNonce.value else lastCN)
      ensures ctx.firstNewTxID > 0 ==>
                var choose := SuffixOf(addr, ctx, selfShard);
                var start := if stateNonce.Some? then stateNonce.value else lastCN;
                var suffix := Filter(old(queue), choose) + if usesSide then Filter(old(side), choose) else [];
                && |queue| >= |suffix| && (forall i :: 0 <= i < |suffix| ==> queue[i] == suffix[i].(nonce := start + i))
                && queue[|suffix|..] == Filter(old(queue), Except(choose))
                && side == if usesSide then Filter(old(side), Except(choose)) else old(side)
    {
      hide Numbered, Filter;
      if ctx.firstNewTxID <= 0 {
        return;
      }
      ghost var choose := SuffixOf(addr, ctx, selfShard);
      var start := if stateNonce.Some? then stateNonce.value else lastCN;
      var head, tail := Renumbered(queue, addr, ctx, selfShard, start);
      var aside: seq<Transaction> := [];
      ghost var was := if usesSide then side else [];
      if usesSide {
        aside, side := Renumbered(side, addr, ctx, selfShard, start + |head|);
      } else {
        NothingNumbered(start + |head|, choose);
      }
      NumberedJoined(Filter(queue, choose), Filter(was, choose), start);
      head := head + aside;
      NumberedAt(Filter(queue, choose) + Filter(was, choose), start);
      if |head| == 0 {
        NoneChosen(queue, choose);
        assert head + queue == queue;
        return;
      }
      queue := head + tail;
      assert queue[|head|..] == tail;
    }

    /** The old suffix of a list, numbered from a nonce, and what is left of the list. */
    method Renumbered(txs: seq<Transaction>, addr: string, ctx: CtxView, selfShard: int, start: nat)
      returns (head: seq<Transaction>, rest: seq<Transaction>)
      ensures head == Numbered(Filter(txs, SuffixOf(addr, ctx, selfShard)), start)
      ensures rest == Filter(txs, Except(SuffixOf(addr, ctx, selfShard)))
    {
      hide Numbered;
      ghost var choose := SuffixOf(addr, ctx, selfShard);
      head, rest := [], [];
      NothingNumbered(start, choose);
      for i := 0 to |txs|
        invariant head == Numbered(Filter(txs[..i], choose), start) && |head| == |Filter(txs[..i], choose)|
        invariant rest == Filter(txs[..i], Except(choose))
      {
        var tx := txs[i];
        assert txs[..i + 1][..i] == txs[..i];
        if tx.sender == addr && ctx.ShouldSourcePackOutgoing(selfShard, tx.id, tx.OrderTimestamp(), tx.requestTime) {
          NumberedGrows(Filter(txs[..i], choose), tx, start);
          head := head + [tx.(nonce := start + |head|)];
        } else {
          rest := rest + [tx];
        }
      }
      assert txs[..|txs|] == txs;
    }
  }

  lemma NumberedJoined(txs: seq<Transaction>, more: seq<Transaction>, start: nat)
    ensures |Numbered(txs, start)| == |txs|
    ensures Numbered(txs + more, start) == Numbered(txs, start) + Numbered(more, start + |txs|)
    ensures Numbered(txs + more, start) == [] ==> txs == []
  {
  }

  lemma NumberedAt(txs: seq<Transaction>, start: nat)
    ensures |Numbered(txs, start)| == |txs|
    ensures forall i :: 0 <= i < |txs| ==> Numbered(txs, start)[i] == txs[i].(nonce := start + i)
  {
  }

  lemma NothingNumbered(start: nat, choose: Transaction -> bool)
    ensures Numbered([], start) == [] == Filter([], choose)
  {
  }

  // ---------------------------------------------------------------------------
  // A permutation, but for the nonces

  function Unnumbered(txs: seq<Transaction>): seq<Transaction> {
    seq(|txs|, i requires 0 <= i < |txs| => txs[i].(nonce := 0))
  }

  lemma {:induction false} SplitKeepsAll(queue: seq<Transaction>, choose: Transaction -> bool)
    ensures multiset(Unnumbered(Filter(queue, choose))) + multiset(Unnumbered(Filter(queue, Except(choose))))
            == multiset(Unnumbered(queue))
  {
    if queue == [] {
    } else {
      var front, tx := queue[..|queue| - 1], queue[|queue| - 1];
      SplitKeepsAll(front, choose);
      assert Unnumbered(queue) == Unnumbered(front) + [tx.(nonce := 0)];
      if choose(tx) {
        assert Unnumbered(Filter(queue, choose)) == Unnumbered(Filter(front, choose)) + [tx.(nonce := 0)];
      } else {
        assert Unnumbered(Filter(queue, Except(choose))) ==
            Unnumbered(Filter(front, Except(choose))) + [tx.(nonce := 0)];
      }
    }
  }

  lemma UnnumberedJoined(txs: seq<Transaction>, more: seq<Transaction>, start: nat)
    ensures multiset(Unnumbered(txs + more)) == multiset(Unnumbered(txs)) + multiset(Unnumbered(more))
    ensures Unnumbered(Numbered(txs, start)) == Unnumbered(txs)
  {
    assert Unnumbered(txs + more) == Unnumbered(txs) + Unnumbered(more);
  }

  /** The promoted queue holds the same transactions, but for the nonces of those chosen. */
  lemma PromotionPermutes(queue: seq<Transaction>, choose: Transaction -> bool, start: nat)
    ensures multiset(Unnumbered(Promoted(queue, choose, start))) == multiset(Unnumbered(queue))
  {
    hide Unnumbered, Numbered;
    var head, tail := Filter(queue, choose), Filter(queue, Except(choose));
    SplitKeepsAll(queue, choose);
    UnnumberedJoined(head, tail, start);
    UnnumberedJoined(Numbered(head, start), tail, start);
  }

  /** And with those from the side pool, queue and side pool together do. */
  lemma SuffixPromotionPermutes(queue: seq<Transaction>, side: seq<Transaction>, choose: Transaction -> bool,
                                start: nat)
    ensures
      var promoted := Numbered(Filter(queue, choose) + Filter(side, choose), start) + Filter(queue, Except(choose));
      multiset(Unnumbered(promoted)) + multiset(Unnumbered(Filter(side, Except(choose))))
      == multiset(Unnumbered(queue)) + multiset(Unnumbered(side))
  {
    hide Unnumbered, Numbered;
    var q, s, rest := Filter(queue, choose), Filter(side, choose), Filter(queue, Except(choose));
    SplitKeepsAll(queue, choose);
    SplitKeepsAll(side, choose);
    UnnumberedJoined(q, s, start);
    UnnumberedJoined(q + s, [], start);
    UnnumberedJoined(Numbered(q + s, start), rest, start);
  }

  // ---------------------------------------------------------------------------
  // Execution

  /** Whether a transaction is executed from its sender's side on this shard: it is no
      relay, or it was redirected here for an account that has migrated here. */
  predicate RunsSender(tx: Transaction, arrived: bool) {
    !tx.Relayed() || (tx.redirectTag != "" && arrived)
  }

  /** The nonce of the account after the transactions of a block: each one that runs from
      its sender's side is executed if it carries the current nonce and skipped if not. */
  function NonceAfter(txs: seq<Transaction>, addr: string, arrived: bool, nonce: nat): nat {
    if txs == [] then nonce else
    var n, tx := NonceAfter(txs[..|txs| - 1], addr, arrived, nonce), txs[|txs| - 1];
    if tx.sender == addr && RunsSender(tx, arrived) && tx.nonce == n then n + 1 else n
  }

  /** Transaction i passes its nonce check, if it is checked at all. */
  ghost predicate Passes(txs: seq<Transaction>, addr: string, arrived: bool, nonce: nat, i: nat)
    requires i < |txs|
  {
    txs[i].sender == addr && RunsSender(txs[i], arrived) ==>
      txs[i].nonce == NonceAfter(txs[..i], addr, arrived, nonce)
  }

  /** The transactions of a block that the account sends. */
  function SentBy(txs: seq<Transaction>, addr: string): seq<Transaction> {
    if txs == [] then [] else
    var front, tx := SentBy(txs[..|txs| - 1], addr), txs[|txs| - 1];
    if tx.sender == addr then front + [tx] else front
  }

  /** Only the transactions that the account sends move its nonce. */
  lemma {:induction false} OnlySentCount(txs: seq<Transaction>, addr: string, arrived: bool, nonce: nat)
    ensures NonceAfter(txs, addr, arrived, nonce) == NonceAfter(SentBy(txs, addr), addr, arrived, nonce)
  {
    if txs != [] {
      OnlySentCount(txs[..|txs| - 1], addr, arrived, nonce);
      if txs[|txs| - 1].sender == addr {
        assert SentBy(txs, addr)[..|SentBy(txs, addr)| - 1] == SentBy(txs[..|txs| - 1], addr);
      }
    }
  }

  /** Promoted transactions carry consecutive nonces from the start. */
  ghost predicate Consecutive(txs: seq<Transaction>, addr: string, start: nat) {
    forall i :: 0 <= i < |txs| ==> txs[i].sender == addr && txs[i].nonce == start + i
  }

  /** Up to the first one that does not run from its sender's side they all pass and each
      uses its nonce; behind it none does. */
  lemma {:induction false} ConsecutiveRun(txs: seq<Transaction>, addr: string, arrived: bool, start: nat)
    requires Consecutive(txs, addr, start)
    ensures NonceAfter(txs, addr, arrived, start) <= start + |txs|
    ensures NonceAfter(txs, addr, arrived, start) == start + |txs| <==>
              forall i :: 0 <= i < |txs| ==> RunsSender(txs[i], arrived)
  {
    if txs != [] {
      var front := txs[..|txs| - 1];
      assert forall i :: 0 <= i < |front| ==> front[i] == txs[i];
      ConsecutiveRun(front, addr, arrived, start);
    }
  }

  /** Take a block in which the account sends the first m of some promoted transactions. If
      they all run from their sender's side, each passes its nonce check; and the block
      leaves the nonce m higher exactly then. With all news of the target in the block,
      that is the next nonce of the context. */
  lemma PromotedRun(txs: seq<Transaction>, addr: string, start: nat, arrived: bool, block: seq<Transaction>, m: nat)
    requires m <= |txs| && forall tx :: tx in txs ==> tx.sender == addr
    requires SentBy(block, addr) == Numbered(txs, start)[..m]
    ensures NonceAfter(block, addr, arrived, start) == start + m <==>
              forall i :: 0 <= i < m ==> RunsSender(txs[i], arrived)
    ensures (forall i :: 0 <= i < m ==> RunsSender(txs[i], arrived)) ==>
              forall i :: 0 <= i < |block| ==> Passes(block, addr, arrived, start, i)
  {
    var sent := SentBy(block, addr);
    assert forall i :: 0 <= i < m ==> txs[i] in txs && sent[i] == txs[i].(nonce := start + i);
    assert Consecutive(sent, addr, start);
    OnlySentCount(block, addr, arrived, start);
    ConsecutiveRun(sent, addr, arrived, start);
    assert forall i :: 0 <= i < m ==> RunsSender(sent[i], arrived) == RunsSender(txs[i], arrived);
    if forall i :: 0 <= i < m ==> RunsSender(txs[i], arrived) {
      forall i | 0 <= i < |block| ensures Passes(block, addr, arrived, start, i) {
        PassesAt(block, addr, arrived, start, i);
      }
    }
  }

  /** The news of the target: they run from their sender's side once they are redirected,
      or if they are no relays. */
  lemma PromotedNewsRun(queue: seq<Transaction>, addr: string, mig1Time: int, start: nat, block: seq<Transaction>,
                        m: nat)
    requires m <= |Filter(queue, NewOf(addr, mig1Time))|
    requires SentBy(block, addr) == Numbered(Filter(queue, NewOf(addr, mig1Time)), start)[..m]
    requires forall tx :: tx in queue ==> !tx.Relayed() || tx.redirectTag != ""
    ensures NonceAfter(block, addr, true, start) == start + m
    ensures forall i :: 0 <= i < |block| ==> Passes(block, addr, true, start, i)
  {
    var news := Filter(queue, NewOf(addr, mig1Time));
    AllOrNone(queue, NewOf(addr, mig1Time));
    assert forall i :: 0 <= i < m ==> news[i] in news;
    PromotedRun(news, addr, start, true, block, m);
  }

  /** The old suffix of the source runs if it holds no relays: it is the account's own. */
  lemma PromotedSuffixRuns(queue: seq<Transaction>, side: seq<Transaction>, addr: string, ctx: CtxView, selfShard: int,
                           start: nat, block: seq<Transaction>, m: nat)
    requires
      var suffix := Filter(queue, SuffixOf(addr, ctx, selfShard)) + Filter(side, SuffixOf(addr, ctx, selfShard));
      m <= |suffix| && SentBy(block, addr) == Numbered(suffix, start)[..m]
    requires forall tx :: tx in queue + side ==> !tx.Relayed()
    ensures NonceAfter(block, addr, false, start) == start + m
    ensures forall i :: 0 <= i < |block| ==> Passes(block, addr, false, start, i)
  {
    var choose := SuffixOf(addr, ctx, selfShard);
    var suffix := Filter(queue, choose) + Filter(side, choose);
    AllOrNone(queue, choose);
    AllOrNone(side, choose);
    assert forall tx :: tx in suffix ==> tx in Filter(queue, choose) || tx in Filter(side, choose);
    assert forall i :: 0 <= i < m ==> suffix[i] in suffix;
    PromotedRun(suffix, addr, start, false, block, m);
  }

  lemma {:induction false} SentPrefix(txs: seq<Transaction>, addr: string, i: nat)
    requires i <= |txs|
    ensures SentBy(txs[..i], addr) <= SentBy(txs, addr)
    decreases |txs|
  {
    if i < |txs| {
      var front := txs[..|txs| - 1];
      assert front[..i] == txs[..i];
      SentPrefix(front, addr, i);
    } else {
      assert txs[..i] == txs;
    }
  }

  lemma PassesAt(block: seq<Transaction>, addr: string, arrived: bool, start: nat, i: nat)
    requires i < |block| && Consecutive(SentBy(block, addr), addr, start)
    requires forall j :: 0 <= j < |SentBy(block, addr)| ==> RunsSender(SentBy(block, addr)[j], arrived)
    ensures Passes(block, addr, arrived, start, i)
  {
    if block[i].sender == addr {
      var before, upTo := SentBy(block[..i], addr), SentBy(block[..i + 1], addr);
      SentPrefix(block, addr, i);
      SentPrefix(block, addr, i + 1);
      assert block[..i + 1][..i] == block[..i];
      assert upTo == before + [block[i]];
      assert SentBy(block, addr)[|before|] == block[i];
      assert Consecutive(before, addr, start);
      OnlySentCount(block[..i], addr, arrived, start);
      ConsecutiveRun(before, addr, arrived, start);
    }
  }

  /** One new transaction that stays a relay without a tag: the next one is skipped. */
  lemma UntaggedRelayStopsTheRun(tx: Transaction, addr: string, start: nat, arrived: bool)
    requires tx.sender == addr && tx.isRelay && tx.redirectTag == ""
    ensures
      var txs := Numbered([tx, tx.(isRelay := false, relayLock := false)], start);
      NonceAfter(txs, addr, arrived, start) == start
  {
    var txs := Numbered([tx, tx.(isRelay := false, relayLock := false)], start);
    assert txs[..|txs| - 1] == txs[..1] && txs[..1][..|txs[..1]| - 1] == [];
    assert NonceAfter(txs[..1], addr, arrived, start) == start;
  }
}
