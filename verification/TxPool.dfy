/** The transaction pool of core/txpool.go: choosing the transactions of a block, and
    setting aside those of accounts that are being migrated. */
module TxPool {
  import opened MigCtx
  import opened Selections
  import opened Transactions

  /** The pools beside the queue, each by account. */
  datatype SideKind = NotLocking | Locking | OutingBefore

  type Sides = map<(SideKind, string), seq<Transaction>>

  /** What the pool looks at: the strategy, the accounts of this shard and those being
      migrated, the contexts of the migrating accounts, the block and the time. */
  datatype Env = Env(
    mvss: bool,
    mvssPlus: bool,
    notLockAccWhenMigrating: bool,
    lockAccWhenMigrating: bool,
    stopWhenMigrating: bool,
    notLockImmediately: bool,
    selfShard: int,
    own: set<string>,
    notLockAcc: set<string>,
    lockAcc: set<string>,
    outingAcc: set<string>,
    ctxs: map<string, CtxView>,
    blockNumber: int,
    now: int)

  /** Where a queued transaction goes. */
  datatype Dest = Pack | Stay | Aside(kind: SideKind, addr: string, tx: Transaction)

  /** The transaction with the time at which it was set aside. */
  function Stamped(e: Env, tx: Transaction): Transaction {
    if tx.lockTime > 0 then tx.(lockTime2 := e.now) else tx.(lockTime := e.now)
  }

  function SenderLocked(e: Env, tx: Transaction): Transaction {
    Stamped(e, tx).(senLock := true,
      senSupposeOnChain := if e.notLockImmediately && tx.senSupposeOnChain == 0 then e.blockNumber
                           else tx.senSupposeOnChain)
  }

  function RecipientLocked(e: Env, tx: Transaction): Transaction {
    Stamped(e, tx).(recLock := true,
      recSupposeOnChain := if e.notLockImmediately && tx.recSupposeOnChain == 0 then e.blockNumber
                           else tx.recSupposeOnChain)
  }

  /** LockTX sets only the mark, not the block. */
  function SenderMarked(e: Env, tx: Transaction): Transaction {
    Stamped(e, tx).(senLock := true)
  }

  function RecipientMarked(e: Env, tx: Transaction): Transaction {
    Stamped(e, tx).(recLock := true)
  }

  predicate TargetMayPackNew(e: Env, addr: string, tx: Transaction) {
    e.mvss && addr in e.ctxs
    && var ctx := e.ctxs[addr];
       ctx.targetShard == e.selfShard && !ctx.ShouldBlockNewOnTarget() && IsTXNew(ctx.mig1Time, tx.requestTime)
  }

  /** The sender's side belongs to this shard, or is still its task. */
  predicate SenderServed(e: Env, tx: Transaction) {
    || tx.sender in e.own || tx.Relayed()
    || (e.mvss && tx.sender in e.ctxs
        && e.ctxs[tx.sender].ShouldSourcePackOutgoing(e.selfShard, tx.id, tx.OrderTimestamp(), tx.requestTime))
  }

  /** The target waits for the state of the sender, or the source has paused the
      transaction. */
  predicate HeldBySync(e: Env, tx: Transaction) {
    e.mvss && tx.sender in e.ctxs
    && var ctx := e.ctxs[tx.sender];
       || (ctx.targetShard == e.selfShard && ctx.ShouldBlockNewOnTarget() && IsTXNew(ctx.mig1Time, tx.requestTime))
       || (ctx.targetShard != e.selfShard && ctx.IsPaused(tx.id))
  }

  /** Where the packing loop sends a transaction as long as the block has room. */
  function PackDest(e: Env, tx: Transaction): Dest {
    if !SenderServed(e, tx) then Stay
    else if tx.recipient !in e.own && tx.Relayed() then Stay
    else if HeldBySync(e, tx) then Stay
    else if e.mvssPlus && e.notLockAccWhenMigrating then
      if tx.sender in e.notLockAcc then
        if IsTXNew(tx.txmig1Time, tx.requestTime) && !TargetMayPackNew(e, tx.sender, tx) then Stay
        else if tx.sender in e.ctxs && e.ctxs[tx.sender].IsPaused(tx.id) then Stay
        else Pack
      else if tx.recipient in e.notLockAcc then
        var arrival := if tx.secondRequestTime <= 0 then tx.requestTime else tx.secondRequestTime;
        if IsTXNew(tx.txmig1Time, arrival) && !TargetMayPackNew(e, tx.recipient, tx) then Stay else Pack
      else Pack
    else if e.notLockAccWhenMigrating then
      if tx.sender in e.notLockAcc && !tx.Relayed() && tx.txmig1Time < tx.requestTime then
        Aside(NotLocking, tx.sender, SenderLocked(e, tx))
      else if tx.recipient in e.notLockAcc && tx.txmig1Time < tx.secondRequestTime then
        Aside(NotLocking, tx.recipient, RecipientLocked(e, tx))
      else Pack
    else if e.lockAccWhenMigrating then
      if tx.sender in e.lockAcc && !tx.Relayed() then Aside(Locking, tx.sender, SenderLocked(e, tx))
      else if tx.recipient in e.lockAcc then Aside(Locking, tx.recipient, RecipientLocked(e, tx))
      else Pack
    else if !e.stopWhenMigrating && tx.sender in e.outingAcc then
      Aside(OutingBefore, tx.sender, SenderLocked(e, tx))
    else Pack
  }

  /** Where LockTX sends a transaction. */
  function LockDest(e: Env, tx: Transaction): Dest {
    var here := tx.sender in e.own || tx.Relayed();
    if e.notLockAccWhenMigrating && !tx.Relayed() && tx.sender in e.notLockAcc && tx.txmig1Time < tx.requestTime then
      Aside(NotLocking, tx.sender, SenderMarked(e, tx))
    else if e.notLockAccWhenMigrating && tx.recipient in e.notLockAcc && here
            && tx.txmig1Time < tx.secondRequestTime then
      Aside(NotLocking, tx.recipient, RecipientMarked(e, tx))
    else if e.lockAccWhenMigrating && !tx.Relayed() && tx.sender in e.lockAcc then
      Aside(Locking, tx.sender, SenderMarked(e, tx))
    else if e.lockAccWhenMigrating && tx.recipient in e.lockAcc && here then
      Aside(Locking, tx.recipient, RecipientMarked(e, tx))
    else if !e.notLockAccWhenMigrating && !e.lockAccWhenMigrating && !tx.Relayed() && tx.sender in e.outingAcc then
      Aside(OutingBefore, tx.sender, Stamped(e, tx))
    else Stay
  }

  // ---------------------------------------------------------------------------
  // The rules of packing, strategy by strategy

  /** No strategy hinders the transaction. A relay needs its recipient here; any other needs
      its sender here, or is a later old transaction of an account that has left. Held back
      is a new transaction whose sender's state has not come, and at the source a paused one. */
  predicate Ready(e: Env, tx: Transaction) {
    var relay := tx.isRelay || tx.relayLock;
    && (relay ==> tx.recipient in e.own)
    && (!relay && tx.sender !in e.own ==>
          e.mvss && tx.sender in e.ctxs
          && var ctx := e.ctxs[tx.sender];
             && ctx.targetShard != e.selfShard && !(0 < ctx.mig1Time < tx.requestTime)
             && ctx.firstNewTxID > 0 && ctx.firstNewTxID in ctx.orderList && tx.id != ctx.firstNewTxID
             && (if tx.clientTimestamp > 0 then tx.clientTimestamp else tx.requestTime)
                >= ctx.orderList[ctx.firstNewTxID])
    && (e.mvss && tx.sender in e.ctxs ==>
          var ctx := e.ctxs[tx.sender];
          if ctx.targetShard == e.selfShard then !(ctx.fsm.WaitSyncIni? && 0 < ctx.mig1Time < tx.requestTime)
          else tx.id !in ctx.pausedTxIDs)
  }

  /** The arrival was before the migration, or the account comes to this shard and its state
      is here. */
  predicate Timely(e: Env, tx: Transaction, addr: string, arrival: int) {
    || !(0 < tx.txmig1Time < arrival)
    || (e.mvss && addr in e.ctxs && e.ctxs[addr].targetShard == e.selfShard && !e.ctxs[addr].fsm.WaitSyncIni?
        && 0 < e.ctxs[addr].mig1Time < tx.requestTime)
  }

  /** What the block takes as long as it has room. */
  predicate Packs(e: Env, tx: Transaction) {
    && Ready(e, tx) && !AsideAsSender(e, tx) && !AsideAsRecipient(e, tx)
    && (e.mvssPlus && e.notLockAccWhenMigrating ==>
          if tx.sender in e.notLockAcc then
            Timely(e, tx, tx.sender, tx.requestTime)
            && (tx.sender in e.ctxs ==> tx.id !in e.ctxs[tx.sender].pausedTxIDs)
          else
            tx.recipient in e.notLockAcc ==>
              Timely(e, tx, tx.recipient, if tx.secondRequestTime > 0 then tx.secondRequestTime else tx.requestTime))
  }

  /** What is set aside because its sender is locked or leaving. */
  predicate AsideAsSender(e: Env, tx: Transaction) {
    var relay := tx.isRelay || tx.relayLock;
    && Ready(e, tx) && !(e.mvssPlus && e.notLockAccWhenMigrating)
    && match KindOf(e)
       case NotLocking => tx.sender in e.notLockAcc && !relay && tx.txmig1Time < tx.requestTime
       case Locking => tx.sender in e.lockAcc && !relay
       case OutingBefore => tx.sender in e.outingAcc && !e.stopWhenMigrating
  }

  /** What is set aside because its recipient is locked. */
  predicate AsideAsRecipient(e: Env, tx: Transaction) {
    && Ready(e, tx) && !(e.mvssPlus && e.notLockAccWhenMigrating) && !AsideAsSender(e, tx)
    && match KindOf(e)
       case NotLocking => tx.recipient in e.notLockAcc && tx.txmig1Time < tx.secondRequestTime
       case Locking => tx.recipient in e.lockAcc
       case OutingBefore => false
  }

  /** The side pools that packing uses. */
  function KindOf(e: Env): SideKind {
    if e.notLockAccWhenMigrating then NotLocking else if e.lockAccWhenMigrating then Locking else OutingBefore
  }

  function Packing(e: Env): Transaction -> bool {
    (tx: Transaction) => Packs(e, tx)
  }

  function Staying(e: Env): Transaction -> bool {
    (tx: Transaction) => !Packs(e, tx) && !AsideAsSender(e, tx) && !AsideAsRecipient(e, tx)
  }

  function PackedAside(e: Env, kind: SideKind, addr: string): Transaction -> bool {
    (tx: Transaction) =>
      kind == KindOf(e)
      && ((AsideAsSender(e, tx) && tx.sender == addr) || (AsideAsRecipient(e, tx) && tx.recipient == addr))
  }

  function AllLocked(e: Env, txs: seq<Transaction>): (r: seq<Transaction>)
    ensures |r| == |txs|
  {
    seq(|txs|, i requires 0 <= i < |txs| =>
      if AsideAsSender(e, txs[i]) then SenderLocked(e, txs[i]) else RecipientLocked(e, txs[i]))
  }

  /** The one decision of the loop goes by these rules. */
  lemma PackRule(e: Env, tx: Transaction)
    ensures !(AsideAsSender(e, tx) && AsideAsRecipient(e, tx))
    ensures PackDest(e, tx) == Pack <==> Packs(e, tx)
    ensures PackDest(e, tx) == Aside(KindOf(e), tx.sender, SenderLocked(e, tx)) <== AsideAsSender(e, tx)
    ensures PackDest(e, tx) == Aside(KindOf(e), tx.recipient, RecipientLocked(e, tx)) <== AsideAsRecipient(e, tx)
    ensures PackDest(e, tx) == Stay <==> Staying(e)(tx)
  {
    ReadyRule(e, tx);
    hide SenderLocked, RecipientLocked, Ready, SenderServed, HeldBySync;
  }

  lemma ReadyRule(e: Env, tx: Transaction)
    ensures Ready(e, tx) <==>
            SenderServed(e, tx) && (tx.Relayed() ==> tx.recipient in e.own) && !HeldBySync(e, tx)
  {
  }

  /** The marks of a transaction that packing sets aside: the first lock keeps its time, a
      later one is the second; one mark tells the side; where locking is not immediate, the
      first block that would have held it is kept. */
  lemma LockMarks(e: Env, tx: Transaction)
    ensures forall x :: x in {SenderLocked(e, tx), RecipientLocked(e, tx)} ==>
              && Bare(x) == Bare(tx) && x.success == tx.success
              && x.unlockTime == tx.unlockTime && x.unlockTime2 == tx.unlockTime2
              && (tx.lockTime > 0 ==> x.lockTime == tx.lockTime && x.lockTime2 == e.now)
              && (tx.lockTime <= 0 ==> x.lockTime == e.now && x.lockTime2 == tx.lockTime2)
    ensures
      var s, r := SenderLocked(e, tx), RecipientLocked(e, tx);
      && s.senLock && s.recLock == tx.recLock && s.recSupposeOnChain == tx.recSupposeOnChain
      && r.recLock && r.senLock == tx.senLock && r.senSupposeOnChain == tx.senSupposeOnChain
      && s.senSupposeOnChain == (if tx.senSupposeOnChain != 0 || !e.notLockImmediately then tx.senSupposeOnChain
                                 else e.blockNumber)
      && r.recSupposeOnChain == (if tx.recSupposeOnChain != 0 || !e.notLockImmediately then tx.recSupposeOnChain
                                 else e.blockNumber)
  {
  }

  // ---------------------------------------------------------------------------
  // Sorting a queue by destinations

  /** The transactions with one of the destinations, in the order of the queue. */
  function Picked(queue: seq<Transaction>, dests: seq<Dest>, dest: Dest): seq<Transaction>
    requires |dests| == |queue|
  {
    if queue == [] then [] else
    var n := |queue| - 1;
    var front := Picked(queue[..n], dests[..n], dest);
    if dests[n] == dest then front + [queue[n]] else front
  }

  /** The transactions set aside for one account, as changed, in the order of the queue. */
  function SetAside(dests: seq<Dest>, kind: SideKind, addr: string): seq<Transaction> {
    if dests == [] then [] else
    var front, d := SetAside(dests[..|dests| - 1], kind, addr), dests[|dests| - 1];
    if d.Aside? && d.kind == kind && d.addr == addr then front + [d.tx] else front
  }

  function AllAside(dests: seq<Dest>): seq<Transaction> {
    if dests == [] then [] else
    var front, d := AllAside(dests[..|dests| - 1]), dests[|dests| - 1];
    if d.Aside? then front + [d.tx] else front
  }

  function SideOf(sides: Sides, kind: SideKind, addr: string): seq<Transaction> {
    if (kind, addr) in sides then sides[(kind, addr)] else []
  }

  /** The side pools after those destinations. */
  ghost predicate SidesAfter(before: Sides, dests: seq<Dest>, after: Sides) {
    forall kind, addr :: SideOf(after, kind, addr) == SideOf(before, kind, addr) + SetAside(dests, kind, addr)
  }

  function WithAside(sides: Sides, d: Dest): Sides {
    if d.Aside? then sides[(d.kind, d.addr) := SideOf(sides, d.kind, d.addr) + [d.tx]] else sides
  }

  lemma OneMoreSetAside(dests: seq<Dest>, d: Dest, kind: SideKind, addr: string)
    ensures SetAside(dests + [d], kind, addr) ==
            SetAside(dests, kind, addr) + if d.Aside? && d.kind == kind && d.addr == addr then [d.tx] else []
  {
    assert (dests + [d])[..|dests|] == dests;
  }

  lemma OneMoreAside(before: Sides, dests: seq<Dest>, after: Sides, d: Dest)
    requires SidesAfter(before, dests, after)
    ensures SidesAfter(before, dests + [d], WithAside(after, d))
  {
    hide SetAside;
    forall kind, addr
      ensures SideOf(WithAside(after, d), kind, addr) ==
              SideOf(before, kind, addr) + SetAside(dests + [d], kind, addr)
    {
      OneMoreSetAside(dests, d, kind, addr);
      assert SideOf(after, kind, addr) == SideOf(before, kind, addr) + SetAside(dests, kind, addr);
    }
  }

  lemma OneMorePicked(queue: seq<Transaction>, dests: seq<Dest>, tx: Transaction, d: Dest, dest: Dest)
    requires |dests| == |queue|
    ensures Picked(queue + [tx], dests + [d], dest) ==
            if d == dest then Picked(queue, dests, dest) + [tx] else Picked(queue, dests, dest)
  {
    assert (queue + [tx])[..|queue|] == queue && (dests + [d])[..|queue|] == dests;
  }

  /** Setting aside keeps what a transaction is. */
  ghost predicate Faithful(queue: seq<Transaction>, dests: seq<Dest>) {
    |dests| == |queue| && forall i :: 0 <= i < |queue| && dests[i].Aside? ==> Bare(dests[i].tx) == Bare(queue[i])
  }

  /** Sorting a queue loses and doubles nothing: packed, kept and set aside, it is all
      there. */
  lemma {:induction false} SortingKeepsAll(queue: seq<Transaction>, dests: seq<Dest>)
    requires Faithful(queue, dests)
    ensures multiset(AllBare(Picked(queue, dests, Pack))) + multiset(AllBare(Picked(queue, dests, Stay)))
            + multiset(AllBare(AllAside(dests))) == multiset(AllBare(queue))
  {
    if queue != [] {
      var n := |queue| - 1;
      SortingKeepsAll(queue[..n], dests[..n]);
      assert queue == queue[..n] + [queue[n]];
      OneMoreBare(queue[..n], queue[n]);
      OneMoreBare(Picked(queue[..n], dests[..n], Pack), queue[n]);
      OneMoreBare(Picked(queue[..n], dests[..n], Stay), queue[n]);
      if dests[n].Aside? { OneMoreBare(AllAside(dests[..n]), dests[n].tx); }
    }
  }

  // ---------------------------------------------------------------------------
  // Packing

  /** The destinations of a queue when the block has room for so many. */
  function PackDests(e: Env, queue: seq<Transaction>, room: nat): (dests: seq<Dest>)
    ensures |dests| == |queue|
  {
    if queue == [] then [] else
    var n := |queue| - 1;
    var front := PackDests(e, queue[..n], room);
    front + [if |Picked(queue[..n], front, Pack)| >= room then Stay else PackDest(e, queue[n])]
  }

  lemma ChangesAreBare(e: Env, tx: Transaction)
    ensures Bare(Stamped(e, tx)) == Bare(tx)
    ensures Bare(SenderLocked(e, tx)) == Bare(tx) && Bare(RecipientLocked(e, tx)) == Bare(tx)
    ensures Bare(SenderMarked(e, tx)) == Bare(tx) && Bare(RecipientMarked(e, tx)) == Bare(tx)
  {
  }

  lemma AsideIsFaithful(e: Env, tx: Transaction)
    ensures PackDest(e, tx).Aside? ==> Bare(PackDest(e, tx).tx) == Bare(tx)
    ensures LockDest(e, tx).Aside? ==> Bare(LockDest(e, tx).tx) == Bare(tx)
  {
    hide Bare, Stamped, SenderLocked, RecipientLocked, SenderMarked, RecipientMarked, SenderServed, HeldBySync,
         TargetMayPackNew;
    ChangesAreBare(e, tx);
  }

  lemma {:induction false} PackedFits(e: Env, queue: seq<Transaction>, room: nat)
    ensures |Picked(queue, PackDests(e, queue, room), Pack)| <= room
    ensures Faithful(queue, PackDests(e, queue, room))
  {
    hide PackDest, Bare;
    if queue != [] {
      var n := |queue| - 1;
      PackedFits(e, queue[..n], room);
      AsideIsFaithful(e, queue[n]);
      assert PackDests(e, queue, room)[..n] == PackDests(e, queue[..n], room);
    }
  }

  /** Packing neither loses nor doubles a transaction. */
  lemma PackingKeepsAll(e: Env, queue: seq<Transaction>, room: nat)
    ensures
      var dests := PackDests(e, queue, room);
      multiset(AllBare(Picked(queue, dests, Pack))) + multiset(AllBare(Picked(queue, dests, Stay)))
      + multiset(AllBare(AllAside(dests))) == multiset(AllBare(queue))
  {
    PackedFits(e, queue, room);
    SortingKeepsAll(queue, PackDests(e, queue, room));
  }

  lemma {:induction false} PickedDest(e: Env, queue: seq<Transaction>, room: nat, tx: Transaction)
    requires tx in Picked(queue, PackDests(e, queue, room), Pack)
    ensures PackDest(e, tx) == Pack
  {
    hide PackDest;
    var n := |queue| - 1;
    assert PackDests(e, queue, room)[..n] == PackDests(e, queue[..n], room);
    if tx in Picked(queue[..n], PackDests(e, queue[..n], room), Pack) {
      PickedDest(e, queue[..n], room, tx);
    }
  }

  /** What is packed is not held by the synchronization: no new transaction of an account
      whose state has not come, and no transaction that the source has paused. */
  lemma PackedIsNotHeld(e: Env, queue: seq<Transaction>, room: nat, tx: Transaction)
    requires e.mvss && tx in Picked(queue, PackDests(e, queue, room), Pack) && tx.sender in e.ctxs
    ensures
      var ctx := e.ctxs[tx.sender];
      && !(ctx.targetShard == e.selfShard && ctx.fsm == WaitSyncIni && IsTXNew(ctx.mig1Time, tx.requestTime))
      && !(ctx.targetShard != e.selfShard && tx.id in ctx.pausedTxIDs)
  {
    PickedDest(e, queue, room, tx);
  }

  /** With full locking nothing is packed that takes from, or gives to, a locked account;
      with fine-tuned locking nothing whose sender is leaving. */
  lemma PackedIsUnlocked(e: Env, queue: seq<Transaction>, room: nat, tx: Transaction)
    requires tx in Picked(queue, PackDests(e, queue, room), Pack) && !e.notLockAccWhenMigrating
    ensures e.lockAccWhenMigrating ==> (tx.sender !in e.lockAcc || tx.Relayed()) && tx.recipient !in e.lockAcc
    ensures !e.lockAccWhenMigrating && !e.stopWhenMigrating ==> tx.sender !in e.outingAcc
  {
    PickedDest(e, queue, room, tx);
  }

  /** The account is leaving this shard and its context counts what is packed. */
  function FromSource(e: Env): Transaction -> bool {
    (tx: Transaction) => e.mvss && tx.sender in e.ctxs && e.ctxs[tx.sender].targetShard != e.selfShard
  }

  function Marks(txs: seq<Transaction>): (r: seq<(string, int)>)
    ensures |r| == |txs|
  {
    seq(|txs|, i requires 0 <= i < |txs| => (txs[i].sender, txs[i].id))
  }

  lemma OneMoreMarked(e: Env, txs: seq<Transaction>, tx: Transaction)
    ensures Marks(Filter(txs + [tx], FromSource(e))) ==
            Marks(Filter(txs, FromSource(e)))
            + if e.mvss && tx.sender in e.ctxs && e.ctxs[tx.sender].targetShard != e.selfShard
              then [(tx.sender, tx.id)] else []
  {
    hide Filter;
    OneMoreFiltered(txs, tx, FromSource(e));
    var front := Filter(txs, FromSource(e));
    assert FromSource(e)(tx) ==> Filter(txs + [tx], FromSource(e)) == front + [tx];
    assert Marks(front + [tx]) == Marks(front) + [(tx.sender, tx.id)];
    assert Marks(front) + [] == Marks(front) && front + [] == front;
  }

  /** The loop has dealt with the queue up to the place at which the block was full. */
  ghost predicate Dealt(e: Env, queue: seq<Transaction>, room: nat, cut: nat) {
    && cut <= |queue|
    && (forall i :: 0 <= i < cut ==> |Filter(queue[..i], Packing(e))| < room)
    && (cut < |queue| ==> |Filter(queue[..cut], Packing(e))| >= room)
  }

  lemma DealtNext(e: Env, queue: seq<Transaction>, tx: Transaction, room: nat, cut: nat)
    requires Dealt(e, queue, room, cut)
    ensures
      Dealt(e, queue + [tx], room,
            if cut == |queue| && |Filter(queue, Packing(e))| < room then cut + 1 else cut)
  {
    var more := queue + [tx];
    assert forall i :: 0 <= i <= |queue| ==> more[..i] == queue[..i];
    assert queue[..|queue|] == queue;
  }

  /** Packed is what may be packed, set aside what is to be set aside, each up to the cut,
      and the rest stays. */
  ghost predicate ByRules(e: Env, queue: seq<Transaction>, dests: seq<Dest>, cut: nat) {
    && |dests| == |queue| && cut <= |queue|
    && Picked(queue, dests, Pack) == Filter(queue[..cut], Packing(e))
    && Picked(queue, dests, Stay) == Filter(queue[..cut], Staying(e)) + queue[cut..]
    && forall kind, addr ::
         SetAside(dests, kind, addr) == AllLocked(e, Filter(queue[..cut], PackedAside(e, kind, addr)))
  }

  lemma FullByRules(e: Env, queue: seq<Transaction>, dests: seq<Dest>, cut: nat, tx: Transaction)
    requires ByRules(e, queue, dests, cut)
    ensures ByRules(e, queue + [tx], dests + [Stay], cut)
  {
    hide Filter, Picked, SetAside, AllLocked;
    Sorting(queue, dests, tx, Stay);
    assert (queue + [tx])[..cut] == queue[..cut] && (queue + [tx])[cut..] == queue[cut..] + [tx];
    forall kind, addr ensures SetAside(dests + [Stay], kind, addr) == SetAside(dests, kind, addr) {
      OneMoreSetAside(dests, Stay, kind, addr);
    }
  }

  lemma OneByRules(e: Env, queue: seq<Transaction>, dests: seq<Dest>, tx: Transaction)
    requires ByRules(e, queue, dests, |queue|)
    ensures ByRules(e, queue + [tx], dests + [PackDest(e, tx)], |queue| + 1)
  {
    hide Filter, Picked, SetAside, AllLocked, PackDest, Packs, AsideAsSender, AsideAsRecipient;
    var more, d := queue + [tx], PackDest(e, tx);
    PackRule(e, tx);
    Sorting(queue, dests, tx, d);
    assert queue[..|queue|] == queue && more[..|queue| + 1] == more && more[|queue| + 1..] == [];
    OneMoreFiltered(queue, tx, Packing(e));
    OneMoreFiltered(queue, tx, Staying(e));
    forall kind, addr
      ensures SetAside(dests + [d], kind, addr) == AllLocked(e, Filter(more, PackedAside(e, kind, addr)))
    {
      assert SetAside(dests, kind, addr) == AllLocked(e, Filter(queue[..|queue|], PackedAside(e, kind, addr)));
      AsideByRules(e, queue, dests, tx, kind, addr);
    }
  }

  lemma AsideByRules(e: Env, queue: seq<Transaction>, dests: seq<Dest>, tx: Transaction, kind: SideKind, addr: string)
    requires SetAside(dests, kind, addr) == AllLocked(e, Filter(queue, PackedAside(e, kind, addr)))
    ensures SetAside(dests + [PackDest(e, tx)], kind, addr) ==
            AllLocked(e, Filter(queue + [tx], PackedAside(e, kind, addr)))
  {
    hide Filter, SetAside, AllLocked, PackDest, AsideAsSender, AsideAsRecipient, PackedAside;
    var d, was := PackDest(e, tx), Filter(queue, PackedAside(e, kind, addr));
    OneMoreSetAside(dests, d, kind, addr);
    OneMoreFiltered(queue, tx, PackedAside(e, kind, addr));
    AsideRule(e, tx, kind, addr);
    if PackedAside(e, kind, addr)(tx) {
      OneMoreLocked(e, was, tx);
    } else {
      assert was + [] == was && SetAside(dests, kind, addr) + [] == SetAside(dests, kind, addr);
    }
  }

  lemma AsideRule(e: Env, tx: Transaction, kind: SideKind, addr: string)
    ensures
      var d := PackDest(e, tx);
      && (d == Pack <==> Packing(e)(tx)) && (d == Stay <==> Staying(e)(tx))
      && (PackedAside(e, kind, addr)(tx) <==> d.Aside? && d.kind == kind && d.addr == addr)
      && (d.Aside? ==> d.tx == if AsideAsSender(e, tx) then SenderLocked(e, tx) else RecipientLocked(e, tx))
  {
    hide PackDest, AsideAsSender, AsideAsRecipient, SenderLocked, RecipientLocked, KindOf;
    PackRule(e, tx);
  }

  lemma OneMoreLocked(e: Env, txs: seq<Transaction>, tx: Transaction)
    ensures AllLocked(e, txs + [tx]) ==
            AllLocked(e, txs) + [if AsideAsSender(e, tx) then SenderLocked(e, tx) else RecipientLocked(e, tx)]
  {
    hide AsideAsSender, SenderLocked, RecipientLocked;
  }

  /** What the destinations of the loop come to. */
  lemma {:induction false} PackingByRules(e: Env, queue: seq<Transaction>, room: nat) returns (cut: nat)
    ensures Dealt(e, queue, room, cut) && ByRules(e, queue, PackDests(e, queue, room), cut)
  {
    hide PackDest, Packs, AsideAsSender, AsideAsRecipient, SetAside, AllLocked;
    if queue == [] {
      cut := 0;
      NothingDealt(e, room);
    } else {
      var n := |queue| - 1;
      cut := PackingByRules(e, queue[..n], room);
      DealtNext(e, queue[..n], queue[n], room, cut);
      assert queue == queue[..n] + [queue[n]] && queue[..n][..n] == queue[..n];
      if cut == n && |Filter(queue[..n], Packing(e))| < room {
        OneByRules(e, queue[..n], PackDests(e, queue[..n], room), queue[n]);
        cut := n + 1;
      } else {
        PackedFits(e, queue[..n], room);
        FullByRules(e, queue[..n], PackDests(e, queue[..n], room), cut, queue[n]);
      }
    }
  }

  lemma SidesByRules(e: Env, queue: seq<Transaction>, dests: seq<Dest>, cut: nat, before: Sides, after: Sides)
    requires ByRules(e, queue, dests, cut) && SidesAfter(before, dests, after)
    ensures cut <= |queue| && forall kind, addr ::
              SideOf(after, kind, addr) ==
              SideOf(before, kind, addr) + AllLocked(e, Filter(queue[..cut], PackedAside(e, kind, addr)))
  {
    hide Filter, SetAside, AllLocked, SideOf;
  }

  /** A transaction that may be packed is, unless so many earlier ones may be as to fill the
      block; and then, and only then, is nothing more done about the queue. */
  lemma {:induction false} PackedUnlessFull(e: Env, queue: seq<Transaction>, room: nat, i: nat)
    requires i < |queue|
    ensures
      var d, tx, full := PackDests(e, queue, room)[i], queue[i], |Filter(queue[..i], Packing(e))| >= room;
      && (d == Pack <==> !full && Packs(e, tx))
      && (d.Aside? <==> !full && (AsideAsSender(e, tx) || AsideAsRecipient(e, tx)))
      && (d.Aside? ==> d.kind == KindOf(e) && d.addr == if AsideAsSender(e, tx) then tx.sender else tx.recipient)
    decreases |queue|
  {
    hide PackDest, Packs, AsideAsSender, AsideAsRecipient, SenderLocked, RecipientLocked, Filter, Picked, KindOf;
    var n := |queue| - 1;
    var front := PackDests(e, queue[..n], room);
    if i < n {
      PackedUnlessFull(e, queue[..n], room, i);
      assert queue[..n][..i] == queue[..i];
    } else {
      PackRule(e, queue[n]);
      FullAsCounted(e, queue[..n], room);
    }
  }

  lemma FullAsCounted(e: Env, queue: seq<Transaction>, room: nat)
    ensures |Picked(queue, PackDests(e, queue, room), Pack)| >= room <==> |Filter(queue, Packing(e))| >= room
  {
    hide PackDest, Packs, AsideAsSender, AsideAsRecipient, SetAside, AllLocked, Filter, Picked;
    var cut := PackingByRules(e, queue, room);
    FilterJoined(queue[..cut], queue[cut..], Packing(e));
    assert queue == queue[..cut] + queue[cut..] && queue == queue[..|queue|];
  }

  lemma NothingDealt(e: Env, room: nat)
    ensures Dealt(e, [], room, 0) && ByRules(e, [], PackDests(e, [], room), 0)
  {
  }

  lemma NothingSorted(e: Env, queue: seq<Transaction>, room: nat, sides: Sides)
    ensures PackDests(e, queue[..0], room) == [] == LockDests(e, queue[..0])
    ensures Picked(queue[..0], [], Pack) == [] == Picked(queue[..0], [], Stay)
    ensures SidesAfter(sides, [], sides) && Marks(Filter([], FromSource(e))) == []
  {
  }

  lemma Sorting(queue: seq<Transaction>, dests: seq<Dest>, tx: Transaction, d: Dest)
    requires |dests| == |queue|
    ensures Picked(queue + [tx], dests + [d], Pack) ==
            if d == Pack then Picked(queue, dests, Pack) + [tx] else Picked(queue, dests, Pack)
    ensures Picked(queue + [tx], dests + [d], Stay) ==
            if d == Stay then Picked(queue, dests, Stay) + [tx] else Picked(queue, dests, Stay)
  {
    OneMorePicked(queue, dests, tx, d, Pack);
    OneMorePicked(queue, dests, tx, d, Stay);
  }

  lemma NotAside(sides: Sides, d: Dest)
    requires !d.Aside?
    ensures WithAside(sides, d) == sides
  {
  }

  // ---------------------------------------------------------------------------
  // The rules of locking

  /** A transaction that came after one of its accounts began to migrate, where only such
      transactions are locked. */
  predicate LocksNew(e: Env, tx: Transaction) {
    var relay := tx.isRelay || tx.relayLock;
    && e.notLockAccWhenMigrating
    && (|| (!relay && tx.sender in e.notLockAcc && tx.txmig1Time < tx.requestTime)
        || ((relay || tx.sender in e.own) && tx.recipient in e.notLockAcc && tx.txmig1Time < tx.secondRequestTime))
  }

  /** What is set aside in the pools of the kind because its sender is migrating. */
  predicate LocksSender(e: Env, kind: SideKind, tx: Transaction) {
    && !tx.isRelay && !tx.relayLock
    && match kind
       case NotLocking => e.notLockAccWhenMigrating && tx.sender in e.notLockAcc && tx.txmig1Time < tx.requestTime
       case Locking => e.lockAccWhenMigrating && tx.sender in e.lockAcc && !LocksNew(e, tx)
       case OutingBefore => !e.notLockAccWhenMigrating && !e.lockAccWhenMigrating && tx.sender in e.outingAcc
  }

  /** What is set aside because its recipient is: only what this shard would execute. */
  predicate LocksRecipient(e: Env, kind: SideKind, tx: Transaction) {
    && (tx.sender in e.own || tx.isRelay || tx.relayLock) && !LocksSender(e, kind, tx)
    && match kind
       case NotLocking =>
         e.notLockAccWhenMigrating && tx.recipient in e.notLockAcc && tx.txmig1Time < tx.secondRequestTime
       case Locking => e.lockAccWhenMigrating && tx.recipient in e.lockAcc && !LocksNew(e, tx)
       case OutingBefore => false
  }

  function Unlocking(e: Env): Transaction -> bool {
    (tx: Transaction) => forall kind :: !LocksSender(e, kind, tx) && !LocksRecipient(e, kind, tx)
  }

  function LockedAside(e: Env, kind: SideKind, addr: string): Transaction -> bool {
    (tx: Transaction) =>
      (LocksSender(e, kind, tx) && tx.sender == addr) || (LocksRecipient(e, kind, tx) && tx.recipient == addr)
  }

  /** LockTX marks the side that is locked, but not that of a sender merely leaving. */
  function MarkedFor(e: Env, kind: SideKind, tx: Transaction): Transaction {
    if kind == OutingBefore then Stamped(e, tx)
    else if LocksSender(e, kind, tx) then SenderMarked(e, tx)
    else RecipientMarked(e, tx)
  }

  function AllMarked(e: Env, kind: SideKind, txs: seq<Transaction>): (r: seq<Transaction>)
    ensures |r| == |txs|
  {
    seq(|txs|, i requires 0 <= i < |txs| => MarkedFor(e, kind, txs[i]))
  }

  lemma LockRule(e: Env, tx: Transaction, kind: SideKind, addr: string)
    ensures
      var d := LockDest(e, tx);
      && (d == Stay <==> Unlocking(e)(tx))
      && (LockedAside(e, kind, addr)(tx) <==> d.Aside? && d.kind == kind && d.addr == addr)
      && (d.Aside? ==> d.tx == MarkedFor(e, d.kind, tx))
  {
    hide SenderMarked, RecipientMarked, Stamped;
    var d := LockDest(e, tx);
    forall k: SideKind ensures d == Stay ==> !LocksSender(e, k, tx) && !LocksRecipient(e, k, tx) {
      match k case NotLocking => case Locking => case OutingBefore =>
    }
    if d.Aside? { assert LocksSender(e, d.kind, tx) || LocksRecipient(e, d.kind, tx); }
  }

  /** The marks of locking are those of packing without the block. */
  lemma LockedMarks(e: Env, tx: Transaction)
    ensures forall x :: x in {SenderMarked(e, tx), RecipientMarked(e, tx), Stamped(e, tx)} ==>
              && Bare(x) == Bare(tx) && x.success == tx.success
              && x.unlockTime == tx.unlockTime && x.unlockTime2 == tx.unlockTime2
              && x.senSupposeOnChain == tx.senSupposeOnChain && x.recSupposeOnChain == tx.recSupposeOnChain
              && (tx.lockTime > 0 ==> x.lockTime == tx.lockTime && x.lockTime2 == e.now)
              && (tx.lockTime <= 0 ==> x.lockTime == e.now && x.lockTime2 == tx.lockTime2)
    ensures SenderMarked(e, tx).senLock && SenderMarked(e, tx).recLock == tx.recLock
    ensures RecipientMarked(e, tx).recLock && RecipientMarked(e, tx).senLock == tx.senLock
    ensures Stamped(e, tx).senLock == tx.senLock && Stamped(e, tx).recLock == tx.recLock
  {
  }

  // ---------------------------------------------------------------------------
  // Locking

  function LockDests(e: Env, queue: seq<Transaction>): (dests: seq<Dest>)
    ensures |dests| == |queue|
  {
    seq(|queue|, i requires 0 <= i < |queue| => LockDest(e, queue[i]))
  }

  lemma OneMoreLock(e: Env, queue: seq<Transaction>, tx: Transaction)
    ensures LockDests(e, queue + [tx]) == LockDests(e, queue) + [LockDest(e, tx)]
    ensures LockDest(e, tx) != Pack
  {
  }

  lemma LockingFaithful(e: Env, queue: seq<Transaction>)
    ensures Faithful(queue, LockDests(e, queue))
  {
    hide LockDest, Bare;
    forall i | 0 <= i < |queue| && LockDests(e, queue)[i].Aside?
      ensures Bare(LockDests(e, queue)[i].tx) == Bare(queue[i])
    {
      AsideIsFaithful(e, queue[i]);
    }
  }

  lemma {:induction false} NothingPacked(e: Env, queue: seq<Transaction>)
    ensures Picked(queue, LockDests(e, queue), Pack) == []
  {
    hide LockDest;
    if queue != [] {
      var n := |queue| - 1;
      NothingPacked(e, queue[..n]);
      assert LockDests(e, queue)[..n] == LockDests(e, queue[..n]);
      OneMoreLock(e, queue[..n], queue[n]);
    }
  }

  /** Locking neither loses nor doubles a transaction. */
  lemma LockingKeepsAll(e: Env, queue: seq<Transaction>)
    ensures
      var dests := LockDests(e, queue);
      multiset(AllBare(Picked(queue, dests, Stay))) + multiset(AllBare(AllAside(dests))) == multiset(AllBare(queue))
  {
    LockingFaithful(e, queue);
    SortingKeepsAll(queue, LockDests(e, queue));
    NothingPacked(e, queue);
  }

  /** Once locked, a queue holds nothing more to lock. */
  lemma {:induction false} LockingIsDone(e: Env, queue: seq<Transaction>)
    ensures
      var kept := Picked(queue, LockDests(e, queue), Stay);
      forall tx :: tx in kept ==> LockDest(e, tx) == Stay
  {
    hide LockDest;
    if queue != [] {
      var n := |queue| - 1;
      LockingIsDone(e, queue[..n]);
      assert LockDests(e, queue)[..n] == LockDests(e, queue[..n]);
    }
  }

  /** What the destinations of LockTX come to. */
  lemma {:induction false} LockingByRules(e: Env, queue: seq<Transaction>)
    ensures Picked(queue, LockDests(e, queue), Stay) == Filter(queue, Unlocking(e))
    ensures forall kind, addr ::
              SetAside(LockDests(e, queue), kind, addr) == AllMarked(e, kind, Filter(queue, LockedAside(e, kind, addr)))
  {
    hide LockDest, LocksSender, LocksRecipient, MarkedFor;
    if queue != [] {
      var n := |queue| - 1;
      var rest, tx := queue[..n], queue[n];
      LockingByRules(e, rest);
      OneMoreLock(e, rest, tx);
      assert queue == rest + [tx];
      Sorting(rest, LockDests(e, rest), tx, LockDest(e, tx));
      OneMoreFiltered(rest, tx, Unlocking(e));
      forall kind, addr
        ensures SetAside(LockDests(e, queue), kind, addr) ==
                AllMarked(e, kind, Filter(queue, LockedAside(e, kind, addr)))
      {
        AsideByLocking(e, rest, LockDests(e, rest), tx, kind, addr);
      }
      LockRule(e, tx, NotLocking, tx.sender);
    }
  }

  lemma AsideByLocking(e: Env, queue: seq<Transaction>, dests: seq<Dest>, tx: Transaction, kind: SideKind, addr: string)
    requires SetAside(dests, kind, addr) == AllMarked(e, kind, Filter(queue, LockedAside(e, kind, addr)))
    ensures SetAside(dests + [LockDest(e, tx)], kind, addr) ==
            AllMarked(e, kind, Filter(queue + [tx], LockedAside(e, kind, addr)))
  {
    hide Filter, SetAside, AllMarked, LockDest, LocksSender, LocksRecipient, LockedAside, MarkedFor;
    var d, was := LockDest(e, tx), Filter(queue, LockedAside(e, kind, addr));
    OneMoreSetAside(dests, d, kind, addr);
    OneMoreFiltered(queue, tx, LockedAside(e, kind, addr));
    LockRule(e, tx, kind, addr);
    if LockedAside(e, kind, addr)(tx) {
      OneMoreMark(e, kind, was, tx);
    } else {
      assert was + [] == was && SetAside(dests, kind, addr) + [] == SetAside(dests, kind, addr);
    }
  }

  lemma OneMoreMark(e: Env, kind: SideKind, txs: seq<Transaction>, tx: Transaction)
    ensures AllMarked(e, kind, txs + [tx]) == AllMarked(e, kind, txs) + [MarkedFor(e, kind, tx)]
  {
    hide MarkedFor;
  }

  lemma SidesByLocking(e: Env, queue: seq<Transaction>, before: Sides, after: Sides)
    requires SidesAfter(before, LockDests(e, queue), after)
    ensures Picked(queue, LockDests(e, queue), Stay) == Filter(queue, Unlocking(e))
    ensures forall kind, addr ::
              SideOf(after, kind, addr) ==
              SideOf(before, kind, addr) + AllMarked(e, kind, Filter(queue, LockedAside(e, kind, addr)))
  {
    hide Filter, SetAside, AllMarked, SideOf, Picked, LockDests;
    LockingByRules(e, queue);
  }

  class Pool {
    var queue: seq<Transaction>
    var sides: Sides

    constructor (queue: seq<Transaction>)
      ensures this.queue == queue && sides == map[]
    {
      this.queue, sides := queue, map[];
    }

    /** Puts a transaction into a side pool. */
    method PutAside(d: Dest)
      modifies this`sides
      ensures sides == WithAside(old(sides), d)
    {
      if d.Aside? {
        sides := sides[(d.kind, d.addr) := SideOf(sides, d.kind, d.addr) + [d.tx]];
      }
    }

    /** Packs transactions into a block with room for leftCount: up to the place where the
        block is full, each queued transaction goes by the rules of the strategy to exactly
        one of the block, the queue and the side pools, in its order; the others stay. Also
        returns what it marks as committed in source contexts. */
    method FetchTxs2Pack(e: Env, leftCount: nat)
      returns (txs: seq<Transaction>, queueLen: nat, marked: seq<(string, int)>, ghost cut: nat)
      modifies this
      ensures Dealt(e, old(queue), leftCount, cut)
      ensures txs == Filter(old(queue)[..cut], Packing(e))
      ensures queue == Filter(old(queue)[..cut], Staying(e)) + old(queue)[cut..]
      ensures forall kind, addr ::
                SideOf(sides, kind, addr) ==
                SideOf(old(sides), kind, addr) + AllLocked(e, Filter(old(queue)[..cut], PackedAside(e, kind, addr)))
      ensures
        var dests := PackDests(e, old(queue), leftCount);
        && txs == Picked(old(queue), dests, Pack)
        && queue == Picked(old(queue), dests, Stay)
        && SidesAfter(old(sides), dests, sides)
      ensures |txs| <= leftCount && queueLen == |queue| && marked == Marks(Filter(txs, FromSource(e)))
    {
      hide PackDest, SidesAfter, SetAside, WithAside, Marks, Picked, Faithful, Filter, Dealt, AllLocked, SideOf;
      ghost var before := queue;
      var txCnt := if |queue| < leftCount then |queue| else leftCount;
      var rest: seq<Transaction> := [];
      var packedN := 0;
      txs, marked := [], [];
      ghost var dests: seq<Dest> := [];
      NothingSorted(e, before, leftCount, sides);
      for i := 0 to |queue|
        invariant queue == before && |dests| == i && packedN == |txs| <= i
        invariant dests == PackDests(e, before[..i], leftCount)
        invariant txs == Picked(before[..i], dests, Pack) && rest == Picked(before[..i], dests, Stay)
        invariant SidesAfter(old(sides), dests, sides)
        invariant marked == Marks(Filter(txs, FromSource(e)))
      {
        var v := queue[i];
        assert before[..i + 1] == before[..i] + [v] && before[..i + 1][..i] == before[..i];
        if packedN >= txCnt {
          Sorting(before[..i], dests, v, Stay);
          OneMoreAside(old(sides), dests, sides, Stay);
          NotAside(sides, Stay);
          dests := dests + [Stay];
          rest := rest + [v];
          continue;
        }
        var d := PackDest(e, v);
        Sorting(before[..i], dests, v, d);
        OneMoreAside(old(sides), dests, sides, d);
        dests := dests + [d];
        PutAside(d);
        if d == Stay {
          rest := rest + [v];
        }
        if d == Pack {
          OneMoreMarked(e, txs, v);
          if e.mvss && v.sender in e.ctxs && e.ctxs[v.sender].targetShard != e.selfShard {
            marked := marked + [(v.sender, v.id)];
          }
          txs := txs + [v];
          packedN := packedN + 1;
        }
      }
      assert before[..|before|] == before;
      PackedFits(e, before, leftCount);
      cut := PackingByRules(e, before, leftCount);
      SidesByRules(e, before, dests, cut, old(sides), sides);
      queue := rest;
      queueLen := |queue|;
    }

    /** Sets aside the transactions of migrating accounts and closes the gaps in place: a
        stable partition of the queue by the rules of the strategy. */
    method LockTX(e: Env)
      modifies this
      ensures queue == Filter(old(queue), Unlocking(e))
      ensures forall kind, addr ::
                SideOf(sides, kind, addr) ==
                SideOf(old(sides), kind, addr) + AllMarked(e, kind, Filter(old(queue), LockedAside(e, kind, addr)))
      ensures
        var dests := LockDests(e, old(queue));
        && queue == Picked(old(queue), dests, Stay)
        && SidesAfter(old(sides), dests, sides)
    {
      hide LockDest, SidesAfter, SetAside, WithAside, Picked, Faithful, Filter, AllMarked, SideOf;
      ghost var before := queue;
      var n, j := |queue|, 0;
      ghost var dests: seq<Dest> := [];
      NothingSorted(e, before, 0, sides);
      for i := 0 to n
        invariant |queue| == n == |before| && j <= i && |dests| == i
        invariant queue[i..] == before[i..]
        invariant dests == LockDests(e, before[..i])
        invariant queue[..j] == Picked(before[..i], dests, Stay)
        invariant SidesAfter(old(sides), dests, sides)
      {
        var tx := queue[i];
        assert tx == queue[i..][0] == before[i];
        assert before[..i + 1] == before[..i] + [tx] && before[..i + 1][..i] == before[..i];
        var d := LockDest(e, tx);
        Sorting(before[..i], dests, tx, d);
        OneMoreAside(old(sides), dests, sides, d);
        OneMoreLock(e, before[..i], tx);
        if d != Stay { assert d.Aside?; }
        dests := dests + [d];
        PutAside(d);
        if d == Stay {
          queue := queue[j := tx];
          j := j + 1;
        }
      }
      assert before[..n] == before;
      SidesByLocking(e, before, old(sides), sides);
      queue := queue[..j];
    }
  }
}
