/** The synchronization of a migrating account by state deltas in pbft/mvss_delta.go and
    the full-state exchange of pbft/mvss_sync.go, for one account: what the target does
    with deltas that arrive early, late, twice or out of order, and what both shards hold
    after the exchange. */
module DeltaSync {
  import opened MigCtx
  import opened Promotion
  import opened Transactions
  import opened Wrappers

  datatype Account = Account(balance: int, nonce: nat)

  /** A digest, taken as injective in what it is computed from. */
  datatype Hash = NoHash | Digest(address: string, fromShard: string, deltaBalance: int, deltaNonce: int,
                                  startN: nat, endN: nat, requestTime: int, ack: bool, prev: Hash)

  datatype Delta = Delta(address: string, fromShard: string, deltaBalance: int, deltaNonce: int, startN: nat,
                         endN: nat, prevHash: Hash, requestTime: int, ack: bool, hash: Hash)
  {
    function CalcDeltaHash(): Hash {
      Digest(address, fromShard, deltaBalance, deltaNonce, startN, endN, requestTime, ack, prevHash)
    }

    /** The checks that both ends make before they look at the account. */
    predicate Sound() {
      deltaNonce >= 0 && endN >= startN && deltaNonce == endN - startN && hash == CalcDeltaHash()
    }
  }

  /** The context of the account on its target shard. */
  datatype Context = Context(fsm: Fsm, lastCN: nat, lastDeltaHash: Hash, pendingSyncAck: bool)

  /** What the target shard holds about the account: its state, its context, whether the
      migration was aborted, and the deltas that came too early. */
  datatype Target = Target(account: Option<Account>, ctx: Option<Context>, aborted: bool, pending: seq<Delta>)

  // ---------------------------------------------------------------------------
  // Receiving a delta

  function Enqueued(pending: seq<Delta>, d: Delta): seq<Delta> {
    if exists e :: e in pending && e.startN == d.startN && e.endN == d.endN then pending else pending + [d]
  }

  function Abort(t: Target): Target {
    t.(aborted := true,
       ctx := if t.ctx.Some? then Some(t.ctx.value.(fsm := Active)) else None)
  }

  /** The delta was applied before: the context catches up, the account stays. */
  function Repeated(ctx: Context, d: Delta): Context {
    ctx.(fsm := if ctx.fsm == WaitSyncIni then SyncApplied else ctx.fsm,
         lastCN := if ctx.lastCN < d.endN then d.endN else ctx.lastCN,
         lastDeltaHash := d.hash)
  }

  predicate Chained(ctx: Context, d: Delta) {
    ctx.lastDeltaHash == NoHash || ctx.lastDeltaHash == d.prevHash
  }

  /** What a delta does to the target: nothing to the account when it was applied before;
      kept for later when the account is not there yet or behind its first nonce; applied
      when it starts at the nonce of the account and continues its chain of digests;
      refused, which aborts the migration, in every other case. */
  function Inbound(t: Target, d: Delta): (Target, bool) {
    if t.aborted || t.ctx.None? || !d.Sound() then (t, false)
    else if t.account.None? then (t.(pending := Enqueued(t.pending, d)), true)
    else
      var a, ctx := t.account.value, t.ctx.value;
      if a.nonce >= d.endN then (t.(ctx := Some(Repeated(ctx, d))), true)
      else if a.nonce < d.startN then (t.(pending := Enqueued(t.pending, d)), true)
      else if a.nonce == d.startN && Chained(ctx, d) && a.balance + d.deltaBalance >= 0 then
        (t.(account := Some(Account(a.balance + d.deltaBalance, d.endN)),
            ctx := Some(ctx.(fsm := SyncApplied, lastCN := d.endN, lastDeltaHash := d.hash))), true)
      else (t, false)
  }

  /** A sound delta for a migration that goes on is taken unless it starts inside what the
      account has done, breaks the chain or asks for a negative balance. One that ends
      there changes the context only, one that starts later is kept, and one that starts
      at the nonce brings the account to its end. */
  lemma InboundRule(t: Target, d: Delta)
    requires !t.aborted && t.ctx.Some? && d.Sound()
    ensures
      var (u, ok) := Inbound(t, d);
      var ctx, next := t.ctx.value, u.ctx;
      && !u.aborted && next.Some? && next.value.pendingSyncAck == ctx.pendingSyncAck
      && (t.account.None? ==> ok && u == t.(pending := u.pending) && Kept(t.pending, d, u.pending))
      && (t.account.Some? ==>
            var a := t.account.value;
            && u.account.Some?
            && (ok <==> || a.nonce >= d.endN || a.nonce < d.startN
                        || (a.nonce == d.startN && ctx.lastDeltaHash in {NoHash, d.prevHash}
                            && a.balance >= -d.deltaBalance))
            && (!ok ==> u == t)
            && (a.nonce < d.startN ==> u == t.(pending := u.pending) && Kept(t.pending, d, u.pending))
            && (a.nonce >= d.endN ==>
                  && u.account == t.account && u.pending == t.pending && next.value.lastDeltaHash == d.hash
                  && next.value.lastCN >= ctx.lastCN && next.value.lastCN >= d.endN
                  && next.value.lastCN in {ctx.lastCN, d.endN}
                  && next.value.fsm != WaitSyncIni && (ctx.fsm != WaitSyncIni ==> next.value.fsm == ctx.fsm)
                  && (ctx.fsm == WaitSyncIni ==> next.value.fsm == SyncApplied))
            && (ok && d.startN <= a.nonce < d.endN ==>
                  && u.account.value.nonce == d.endN && u.account.value.balance == a.balance + d.deltaBalance
                  && u.pending == t.pending && next.value.lastDeltaHash == d.hash && next.value.lastCN == d.endN
                  && next.value.fsm == SyncApplied))
  {
  }

  /** The delta waits, once for its segment, behind those that came before. */
  predicate Kept(before: seq<Delta>, d: Delta, after: seq<Delta>) {
    if exists i :: 0 <= i < |before| && before[i].startN == d.startN && before[i].endN == d.endN then after == before
    else after == before + [d]
  }

  function InboundOrAbort(t: Target, d: Delta): Target {
    var (u, ok) := Inbound(t, d);
    if ok then u else Abort(u)
  }

  function Delivered(t: Target, d: Delta): Target {
    if d.ack then t
    else if t.ctx.None? then t.(pending := Enqueued(t.pending, d))
    else InboundOrAbort(t, d)
  }

  /** A message finds the context of its own account: here those of other accounts change
      nothing. */
  function Arrived(address: string, t: Target, d: Delta): Target {
    if d.address == address then Delivered(t, d) else t
  }

  function AllInbound(t: Target, ds: seq<Delta>): Target {
    if ds == [] then t else InboundOrAbort(AllInbound(t, ds[..|ds| - 1]), ds[|ds| - 1])
  }

  /** The deltas kept for later are taken out and received again. */
  function Flushed(t: Target): Target {
    AllInbound(t.(pending := []), t.pending)
  }

  /** A delta that the target applies: it starts at the nonce of the account, continues
      the chain of digests and leaves no negative balance. */
  predicate Extends(t: Target, d: Delta) {
    && !t.aborted && t.account.Some? && t.ctx.Some? && d.Sound()
    && d.startN == t.account.value.nonce < d.endN && Chained(t.ctx.value, d)
    && t.account.value.balance + d.deltaBalance >= 0
  }

  /** The pool after a delta: an applied one promotes the account's new transactions. */
  function PromotedFor(t: Target, d: Delta, address: string, mig1Time: int, pool: PoolState): PoolState {
    if Extends(t, d) then Promotes(pool, address, mig1Time, d.endN) else pool
  }

  function AllPromoted(t: Target, ds: seq<Delta>, address: string, mig1Time: int, pool: PoolState): PoolState {
    if ds == [] then pool else
    var front, d := ds[..|ds| - 1], ds[|ds| - 1];
    PromotedFor(AllInbound(t, front), d, address, mig1Time, AllPromoted(t, front, address, mig1Time, pool))
  }

  // ---------------------------------------------------------------------------
  // Blocks of the target

  /** The transactions of a block that touch the account: it sends, perhaps to itself, or
      it receives. */
  datatype Tx = Spend(nonce: nat, value: nat, isNew: bool, toSelf: bool) | Credit(value: nat)

  datatype Mig2 = Mig2(value: int, lastCN: nat)

  function Executed(t: Target, tx: Tx): Target
    requires t.account.Some?
  {
    var a := t.account.value;
    match tx
    case Credit(value) => t.(account := Some(a.(balance := a.balance + value)))
    case Spend(nonce, value, isNew, toSelf) =>
      if nonce != a.nonce then t
      else t.(account := Some(Account(if toSelf then a.balance else a.balance - value, a.nonce + 1)),
              ctx := if isNew && t.ctx.Some? then Some(t.ctx.value.(pendingSyncAck := true)) else t.ctx)
  }

  function AllExecuted(t: Target, txs: seq<Tx>): (u: Target)
    requires t.account.Some?
    ensures u.account.Some?
  {
    if txs == [] then t else Executed(AllExecuted(t, txs[..|txs| - 1]), txs[|txs| - 1])
  }

  /** The first of the new transactions the account sends in the block. */
  function FirstNewValue(txs: seq<Tx>): Option<nat> {
    if txs == [] then None
    else if txs[0].Spend? && txs[0].isNew then Some(txs[0].value)
    else FirstNewValue(txs[1..])
  }

  /** The i-th transaction is the first new one that the account sends. */
  predicate FirstNew(txs: seq<Tx>, i: int) {
    && 0 <= i < |txs| && txs[i].Spend? && txs[i].isNew
    && forall j :: 0 <= j < i ==> !(txs[j].Spend? && txs[j].isNew)
  }

  lemma {:induction false} FirstNewIs(txs: seq<Tx>, i: int)
    ensures FirstNew(txs, i) ==> FirstNewValue(txs) == Some(txs[i].value)
    ensures FirstNewValue(txs).Some? <==> exists j :: FirstNew(txs, j)
    decreases txs
  {
    if txs != [] {
      var rest := txs[1..];
      assert forall j :: 0 <= j < |rest| ==> rest[j] == txs[j + 1];
      if txs[0].Spend? && txs[0].isNew {
        assert FirstNew(txs, 0);
      } else {
        FirstNewIs(rest, i - 1);
        assert forall j :: FirstNew(rest, j) ==> FirstNew(txs, j + 1);
        assert forall j :: FirstNew(txs, j) ==> FirstNew(rest, j - 1);
      }
    }
  }

  /** The first nonce that the ack covers: one before the last if the context is already
      level with the account although the block holds a new transaction. */
  function AckStart(ctx: Context, a: Account, txs: seq<Tx>): nat {
    if a.nonce <= ctx.lastCN && FirstNewValue(txs).Some? && a.nonce > 0 then a.nonce - 1 else ctx.lastCN
  }

  function Ack(address: string, shard: string, t: Target, txs: seq<Tx>, now: int): Option<Delta> {
    if t.ctx.None? || t.ctx.value.fsm != SyncApplied || t.account.None? then None
    else
      var a, ctx := t.account.value, t.ctx.value;
      var startN := AckStart(ctx, a, txs);
      if a.nonce <= startN then None
      else
        var spent := if FirstNewValue(txs).Some? then FirstNewValue(txs).value else 0;
        var d := Delta(address, shard, -spent, a.nonce - startN, startN, a.nonce, ctx.lastDeltaHash, now, true, NoHash);
        Some(d.(hash := d.CalcDeltaHash()))
  }

  /** The shard tells of the account as it is now. */
  predicate TellsOf(address: string, shard: string, ack: Delta, a: Account, now: int) {
    && ack.address == address && ack.fromShard == shard && ack.ack && ack.endN == a.nonce && ack.requestTime == now
    && ack.deltaNonce == ack.endN - ack.startN > 0 && ack.hash == ack.CalcDeltaHash()
  }

  /** The context after sending an ack. */
  function AckSentFor(ctx: Context, ack: Delta): Context {
    ctx.(fsm := AckSent, pendingSyncAck := false, lastDeltaHash := ack.hash, lastCN := ack.endN)
  }

  /** After its transactions a block flushes the early deltas, if it brought the account,
      and sends an ack if one is due. */
  function AckDue(address: string, shard: string, t: Target, txs: seq<Tx>, now: int): Option<Delta> {
    if !t.aborted && t.ctx.Some? && t.ctx.value.pendingSyncAck then Ack(address, shard, t, txs, now) else None
  }

  function Moved(t: Target, mig2: Option<Mig2>): Target {
    if mig2.Some? then t.(account := Some(Account(mig2.value.value, mig2.value.lastCN))) else t
  }

  function BlockEnded(address: string, shard: string, t: Target, mig2: Option<Mig2>, txs: seq<Tx>, now: int)
    : (Target, Option<Delta>)
    requires t.account.Some?
  {
    var run := AllExecuted(Moved(t, mig2), txs);
    var u := if mig2.Some? then Flushed(run) else run;
    var ack := AckDue(address, shard, u, txs, now);
    (if ack.Some? then u.(ctx := Some(AckSentFor(u.ctx.value, ack.value))) else u, ack)
  }

  /** Kept deltas, and the transactions of a block, take effect one after the other. */
  lemma OneAfterTheOther(t: Target, ds: seq<Delta>, d: Delta, txs: seq<Tx>, tx: Tx)
    ensures AllInbound(t, []) == t && AllInbound(t, ds + [d]) == InboundOrAbort(AllInbound(t, ds), d)
    ensures t.account.Some? ==>
              AllExecuted(t, []) == t && AllExecuted(t, txs + [tx]) == Executed(AllExecuted(t, txs), tx)
    ensures Flushed(t) == AllInbound(t.(pending := []), t.pending)
  {
    hide InboundOrAbort, Executed;
    assert (ds + [d])[..|ds|] == ds && (txs + [tx])[..|txs|] == txs;
  }

  /** Every ack at the end of a block tells of the account as the block has left it. */
  lemma AckIsOwn(address: string, shard: string, t: Target, mig2: Option<Mig2>, txs: seq<Tx>, now: int)
    requires t.account.Some?
    ensures
      var (u, ack) := BlockEnded(address, shard, t, mig2, txs, now);
      ack.Some? ==> u.account.Some? && TellsOf(address, shard, ack.value, u.account.value, now)
                    && u.ctx.Some? && u.ctx.value.fsm == AckSent && u.ctx.value.lastDeltaHash == ack.value.hash
  {
    hide AllExecuted, Flushed;
  }

  // ---------------------------------------------------------------------------
  // Runs of the target after the block that brought the account

  datatype Event = Deliver(d: Delta) | Block(txs: seq<Tx>, now: int)

  /** What happened to the account: a delta was applied to nonces startN up to endN, a
      nonce was used by a transaction, or the account received. */
  datatype Entry = Applied(startN: nat, endN: nat, amount: int) | Used(nonce: nat, amount: int) | Received(amount: int)

  datatype History = History(target: Target, log: seq<Entry>, acks: seq<Delta>)

  function DeliveryEntry(address: string, t: Target, d: Delta): seq<Entry> {
    if Arrived(address, t, d).account == t.account then [] else [Applied(d.startN, d.endN, d.deltaBalance)]
  }

  function TxEntry(t: Target, tx: Tx): seq<Entry>
    requires t.account.Some?
  {
    match tx
    case Credit(value) => [Received(value)]
    case Spend(nonce, value, isNew, toSelf) =>
      if nonce != t.account.value.nonce then []
      else
        var amount: int := if toSelf then 0 else -(value as int);
        [Used(nonce, amount)]
  }

  function TxEntries(t: Target, txs: seq<Tx>): seq<Entry>
    requires t.account.Some?
  {
    if txs == [] then [] else
    TxEntries(t, txs[..|txs| - 1]) + TxEntry(AllExecuted(t, txs[..|txs| - 1]), txs[|txs| - 1])
  }

  function Step(address: string, shard: string, h: History, e: Event): (g: History)
    requires h.target.account.Some?
    ensures g.target.account.Some?
  {
    match e
    case Deliver(d) => h.(target := Arrived(address, h.target, d), log := h.log + DeliveryEntry(address, h.target, d))
    case Block(txs, now) =>
      var (u, ack) := BlockEnded(address, shard, h.target, None, txs, now);
      History(u, h.log + TxEntries(h.target, txs), if ack.Some? then h.acks + [ack.value] else h.acks)
  }

  function Run(address: string, shard: string, t: Target, events: seq<Event>): (h: History)
    requires t.account.Some?
    ensures h.target.account.Some?
  {
    if events == [] then History(t, [], []) else
    Step(address, shard, Run(address, shard, t, events[..|events| - 1]), events[|events| - 1])
  }

  /** The nonce after a log that starts at a given one. */
  function End(log: seq<Entry>, start: nat): nat {
    if log == [] then start else
    match log[|log| - 1]
    case Applied(_, endN, _) => endN
    case Used(nonce, _) => nonce + 1
    case Received(_) => End(log[..|log| - 1], start)
  }

  /** Every applied delta is a non-empty segment, and every used nonce a single one, that
      begins where the log before it ends: no nonce is covered twice and none left out. */
  ghost predicate Tiles(log: seq<Entry>, start: nat) {
    log != [] ==>
      var front := log[..|log| - 1];
      && Tiles(front, start)
      && match log[|log| - 1]
         case Applied(startN, endN, _) => startN == End(front, start) && endN > startN
         case Used(nonce, _) => nonce == End(front, start)
         case Received(_) => true
  }

  function Total(log: seq<Entry>): int {
    if log == [] then 0 else Total(log[..|log| - 1]) + log[|log| - 1].amount
  }

  /** The log accounts for the nonce and the balance. */
  ghost predicate Explains(log: seq<Entry>, start: Account, now: Option<Account>) {
    now.Some? && Tiles(log, start.nonce) && now.value == Account(start.balance + Total(log), End(log, start.nonce))
  }

  lemma OneMoreEntry(log: seq<Entry>, e: Entry, start: Account, a: Account, b: Account)
    requires Explains(log, start, Some(a)) && b.balance == a.balance + e.amount
    requires match e
             case Applied(startN, endN, _) => startN == a.nonce && endN > startN && b.nonce == endN
             case Used(nonce, _) => nonce == a.nonce && b.nonce == nonce + 1
             case Received(_) => b.nonce == a.nonce
    ensures Explains(log + [e], start, Some(b))
  {
    assert (log + [e])[..|log|] == log;
  }

  lemma DeliveryExplained(address: string, log: seq<Entry>, start: Account, t: Target, d: Delta)
    requires Explains(log, start, t.account)
    ensures Explains(log + DeliveryEntry(address, t, d), start, Arrived(address, t, d).account)
  {
    var u := Arrived(address, t, d);
    if u.account == t.account {
      assert log + [] == log;
    } else {
      OneMoreEntry(log, Applied(d.startN, d.endN, d.deltaBalance), start, t.account.value, u.account.value);
    }
  }

  lemma {:induction false} TxsExplained(log: seq<Entry>, start: Account, t: Target, txs: seq<Tx>)
    requires Explains(log, start, t.account)
    ensures Explains(log + TxEntries(t, txs), start, AllExecuted(t, txs).account)
  {
    if txs == [] {
      assert log + [] == log;
    } else {
      var front, tx := txs[..|txs| - 1], txs[|txs| - 1];
      TxsExplained(log, start, t, front);
      var u, soFar := AllExecuted(t, front), log + TxEntries(t, front);
      assert log + TxEntries(t, txs) == soFar + TxEntry(u, tx);
      if TxEntry(u, tx) == [] {
        assert soFar + [] == soFar;
      } else {
        OneMoreEntry(soFar, TxEntry(u, tx)[0], start, u.account.value, Executed(u, tx).account.value);
      }
    }
  }

  /** Whatever is delivered, repeated or reordered, and whatever is executed in between:
      the segments of the applied deltas and the nonces of the executed transactions tile
      the nonces from the start to the current one, and the balance is their sum. */
  lemma {:induction false} RunIsTiled(address: string, shard: string, t: Target, events: seq<Event>)
    requires t.account.Some?
    ensures
      var h := Run(address, shard, t, events);
      Explains(h.log, t.account.value, h.target.account)
  {
    if events != [] {
      var front, e := events[..|events| - 1], events[|events| - 1];
      RunIsTiled(address, shard, t, front);
      var h := Run(address, shard, t, front);
      match e {
        case Deliver(d) => DeliveryExplained(address, h.log, t.account.value, h.target, d);
        case Block(txs, now) => TxsExplained(h.log, t.account.value, h.target, txs);
      }
    }
  }

  lemma {:induction false} TilesGrow(log: seq<Entry>, start: nat, i: nat)
    requires Tiles(log, start) && i <= |log|
    ensures Tiles(log[..i], start) && start <= End(log[..i], start) <= End(log, start)
    decreases |log|
  {
    if i < |log| {
      var front := log[..|log| - 1];
      TilesGrow(front, start, i);
      assert front[..i] == log[..i];
    } else {
      assert log[..i] == log;
      if log != [] { TilesGrow(log[..|log| - 1], start, 0); }
    }
  }

  /** No two applied deltas share a nonce; so none is applied twice, and the nonce never
      decreases. */
  lemma AppliedOnce(log: seq<Entry>, start: nat, i: nat, j: nat)
    requires Tiles(log, start) && i < j < |log| && log[i].Applied? && log[j].Applied?
    ensures start <= log[i].startN < log[i].endN <= log[j].startN < log[j].endN <= End(log, start)
  {
    TilesGrow(log, start, i);
    TilesGrow(log, start, i + 1);
    TilesGrow(log, start, j);
    TilesGrow(log, start, j + 1);
    TilesGrow(log[..j], start, i + 1);
    assert log[..i + 1][..i] == log[..i] && log[..j + 1][..j] == log[..j] && log[..j][..i + 1] == log[..i + 1];
  }

  /** The ends of the segments delivered, acks apart. */
  function EndsOf(events: seq<Event>): set<nat> {
    if events == [] then {} else
    var e := events[|events| - 1];
    EndsOf(events[..|events| - 1]) + if e.Deliver? && !e.d.ack then {e.d.endN} else {}
  }

  lemma {:induction false} ExecutedKeepsPhase(t: Target, txs: seq<Tx>)
    requires t.account.Some?
    ensures
      var u := AllExecuted(t, txs);
      && u.account.value.nonce >= t.account.value.nonce && u.aborted == t.aborted && u.pending == t.pending
      && u.ctx.Some? == t.ctx.Some?
      && (t.ctx.Some? ==> u.ctx.value.fsm == t.ctx.value.fsm)
  {
    if txs != [] { ExecutedKeepsPhase(t, txs[..|txs| - 1]); }
  }

  /** The segments that have made an ack possible: each of them lies below the nonce, and
      they are at least as many as the acks sent and the one now due. */
  ghost predicate Covers(segments: set<nat>, h: History, events: seq<Event>) {
    && segments <= EndsOf(events)
    && h.target.account.Some? && h.target.ctx.Some?
    && (forall e :: e in segments ==> e <= h.target.account.value.nonce)
    && |h.acks| + (if h.target.ctx.value.fsm == SyncApplied then 1 else 0) <= |segments|
    && (h.target.ctx.value.fsm == WaitSyncIni ==> segments == {})
  }

  lemma DeliveryCovered(address: string, shard: string, h: History, events: seq<Event>, segments: set<nat>, d: Delta)
    returns (more: set<nat>)
    requires Covers(segments, h, events)
    ensures Covers(more, Step(address, shard, h, Deliver(d)), events + [Deliver(d)])
  {
    assert (events + [Deliver(d)])[..|events|] == events;
    var t, g := h.target, Step(address, shard, h, Deliver(d));
    var applied := g.target.account != t.account;
    var woken := t.ctx.value.fsm == WaitSyncIni && g.target.ctx.value.fsm == SyncApplied;
    more := if applied then segments + {d.endN} else if woken then {d.endN} else segments;
    if applied { assert d.endN !in segments; }
  }

  /** The acks sent are no more than the different segments delivered. */
  lemma {:induction false} AcksPerSegment(address: string, shard: string, t: Target, events: seq<Event>)
    returns (segments: set<nat>)
    requires t.account.Some? && t.ctx.Some? && t.ctx.value.fsm != SyncApplied
    ensures Covers(segments, Run(address, shard, t, events), events)
  {
    if events == [] {
      segments := {};
    } else {
      var front, e := events[..|events| - 1], events[|events| - 1];
      assert events == front + [e];
      segments := AcksPerSegment(address, shard, t, front);
      var h := Run(address, shard, t, front);
      match e {
        case Deliver(d) => segments := DeliveryCovered(address, shard, h, front, segments, d);
        case Block(txs, now) => ExecutedKeepsPhase(h.target, txs);
      }
    }
  }

  /** When only copies of one segment are delivered, at most one ack is sent. */
  lemma OneSegmentOneAck(address: string, shard: string, t: Target, events: seq<Event>, endN: nat)
    requires t.account.Some? && t.ctx.Some? && t.ctx.value.fsm != SyncApplied
    requires forall e :: e in events && e.Deliver? && !e.d.ack ==> e.d.endN == endN
    ensures |Run(address, shard, t, events).acks| <= 1
  {
    var segments := AcksPerSegment(address, shard, t, events);
    EndsAreOne(events, endN);
    SubsetSize(segments, {endN});
  }

  /** Only copies of what was sent arrive. */
  predicate Copies(events: seq<Event>, sent: seq<Delta>) {
    forall e :: e in events && e.Deliver? && !e.d.ack ==> e.d in sent
  }

  /** The whole of a migration: the source context lives through any history, in which the
      i-th event would find the source ready to send deltas[i]; whatever then happens on
      the target, with any number of copies in any order, it sends at most one ack. */
  method OneMigrationOneAck(ctx: MigAccountCtx, selfShard: int, history: seq<MigCtx.Event>, deltas: seq<Delta>)
    returns (sent: seq<Delta>)
    requires ctx.firstNewTxID == 0 && ctx.fsm == Active && forall id :: id in ctx.orderList ==> id > 0
    requires |deltas| == |history| && forall e :: e in history ==> PositiveId(e)
    modifies ctx
    ensures |sent| <= 1 && forall d :: d in sent ==> d in deltas
    ensures forall address, shard, t: Target, events ::
              t.account.Some? && t.ctx.Some? && t.ctx.value.fsm != SyncApplied && Copies(events, sent) ==>
              |Run(address, shard, t, events).acks| <= 1
  {
    var detections, sends := Live(ctx, selfShard, history);
    sent := if sends == [] then [] else [deltas[sends[0]]];
    forall address, shard, t: Target, events
      | t.account.Some? && t.ctx.Some? && t.ctx.value.fsm != SyncApplied && Copies(events, sent)
      ensures |Run(address, shard, t, events).acks| <= 1
    {
      OneSegmentOneAck(address, shard, t, events, if sent == [] then 0 else sent[0].endN);
    }
  }

  lemma {:induction false} EndsAreOne(events: seq<Event>, endN: nat)
    requires forall e :: e in events && e.Deliver? && !e.d.ack ==> e.d.endN == endN
    ensures EndsOf(events) <= {endN}
  {
    if events != [] {
      assert events[|events| - 1] in events && forall e :: e in events[..|events| - 1] ==> e in events;
      EndsAreOne(events[..|events| - 1], endN);
    }
  }

  /** The target is in the phase in which it acks. */
  predicate Open(t: Target) {
    !t.aborted && t.ctx.Some? && t.ctx.value.fsm == SyncApplied
  }

  /** It is in that phase exactly when there is a block that ends with an ack. */
  lemma OpenIsAcking(address: string, shard: string, t: Target)
    requires t.account.Some?
    ensures Open(t) <==> exists txs, now :: BlockEnded(address, shard, t, None, txs, now).1.Some?
  {
    if Open(t) {
      var tx := Spend(t.account.value.nonce, 0, true, false);
      OneTx(t, tx);
      assert BlockEnded(address, shard, t, None, [tx], 0).1.Some?;
    } else {
      forall txs, now ensures BlockEnded(address, shard, t, None, txs, now).1.None? {
        ExecutedKeepsPhase(t, txs);
      }
    }
  }

  /** The event is a delta from the source that extends the account. */
  predicate Brings(address: string, t: Target, e: Event) {
    e.Deliver? && !e.d.ack && e.d.address == address && Extends(t, e.d)
  }

  /** The i-th event is a delta that extends the account, and no ack has followed it. */
  predicate ReopenedAt(address: string, shard: string, t: Target, events: seq<Event>, i: nat)
    requires t.account.Some?
  {
    && i < |events| && Brings(address, Run(address, shard, t, events[..i]).target, events[i])
    && |Run(address, shard, t, events[..i]).acks| == |Run(address, shard, t, events).acks|
  }

  lemma {:induction false} AcksGrow(address: string, shard: string, t: Target, events: seq<Event>, i: nat)
    requires t.account.Some? && i <= |events|
    ensures |Run(address, shard, t, events[..i]).acks| <= |Run(address, shard, t, events).acks|
  {
    if i == |events| {
      assert events[..i] == events;
    } else {
      AcksGrow(address, shard, t, events[..|events| - 1], i);
      assert events[..|events| - 1][..i] == events[..i];
    }
  }

  lemma ArrivedPhase(address: string, t: Target, d: Delta)
    requires t.account.Some? && t.ctx.Some? && t.ctx.value.fsm != WaitSyncIni
    ensures
      var u := Arrived(address, t, d);
      && u.ctx.Some? && u.ctx.value.fsm != WaitSyncIni && (u.aborted ==> !Open(u)) && (t.aborted ==> u.aborted)
      && (Open(u) <==> Brings(address, t, Deliver(d)) || (Open(t) && !u.aborted))
  {
  }

  lemma ReopenedEarlier(address: string, shard: string, t: Target, front: seq<Event>, e: Event, i: nat)
    requires t.account.Some? && i < |front|
    ensures
      ReopenedAt(address, shard, t, front + [e], i) <==>
      ReopenedAt(address, shard, t, front, i)
      && |Run(address, shard, t, front + [e]).acks| == |Run(address, shard, t, front).acks|
  {
    hide Extends;
    assert (front + [e])[..i] == front[..i];
    AcksGrow(address, shard, t, front, i);
    AcksGrow(address, shard, t, front + [e], |front|);
    assert (front + [e])[..|front|] == front;
  }

  /** After its ack, a target is ready for another exactly when a delta has extended the
      account since the last one and nothing has aborted the migration. */
  lemma {:induction false} AckedAgain(address: string, shard: string, t: Target, events: seq<Event>)
    requires t.account.Some? && t.ctx.Some? && t.ctx.value.fsm !in {WaitSyncIni, SyncApplied}
    ensures
      var u := Run(address, shard, t, events).target;
      && u.ctx.Some? && u.ctx.value.fsm != WaitSyncIni
      && (Open(u) <==> !u.aborted && exists i :: ReopenedAt(address, shard, t, events, i))
  {
    if events != [] {
      var front, e := events[..|events| - 1], events[|events| - 1];
      AckedAgain(address, shard, t, front);
      OneMoreEvent(address, shard, t, front, e);
      assert events == front + [e];
    }
  }

  lemma OneMoreEvent(address: string, shard: string, t: Target, front: seq<Event>, e: Event)
    requires t.account.Some?
    requires
      var u := Run(address, shard, t, front).target;
      && u.ctx.Some? && u.ctx.value.fsm != WaitSyncIni
      && (Open(u) <==> !u.aborted && exists i :: ReopenedAt(address, shard, t, front, i))
    ensures
      var events := front + [e];
      var u := Run(address, shard, t, events).target;
      && u.ctx.Some? && u.ctx.value.fsm != WaitSyncIni
      && (Open(u) <==> !u.aborted && exists i :: ReopenedAt(address, shard, t, events, i))
  {
    var events, h := front + [e], Run(address, shard, t, front);
    var g := Run(address, shard, t, events);
    RunFrom(address, shard, t, front, e);
    assert events[..|front|] == front && events[|front|] == e;
    ReopenedSplit(address, shard, t, front, e);
    assert ReopenedAt(address, shard, t, events, |front|) <==> Brings(address, h.target, e);
    hide ReopenedAt, Run, Extends, BlockEnded, Arrived;
    match e {
      case Deliver(d) => ArrivedPhase(address, h.target, d);
      case Block(txs, now) => BlockPhase(address, shard, h.target, txs, now);
    }
  }

  lemma ReopenedSplit(address: string, shard: string, t: Target, front: seq<Event>, e: Event)
    requires t.account.Some?
    ensures
      (exists i :: ReopenedAt(address, shard, t, front + [e], i)) <==>
      ReopenedAt(address, shard, t, front + [e], |front|)
      || (|Run(address, shard, t, front + [e]).acks| == |Run(address, shard, t, front).acks|
          && exists i :: ReopenedAt(address, shard, t, front, i))
  {
    hide Run, Extends;
    forall i: nat | i < |front|
      ensures ReopenedAt(address, shard, t, front + [e], i) <==>
              ReopenedAt(address, shard, t, front, i)
              && |Run(address, shard, t, front + [e]).acks| == |Run(address, shard, t, front).acks|
    {
      ReopenedEarlier(address, shard, t, front, e, i);
    }
  }

  lemma BlockPhase(address: string, shard: string, t: Target, txs: seq<Tx>, now: int)
    requires t.account.Some? && t.ctx.Some?
    ensures
      var (u, ack) := BlockEnded(address, shard, t, None, txs, now);
      && u.ctx.Some? && u.aborted == t.aborted
      && u.ctx.value.fsm == if ack.Some? then AckSent else t.ctx.value.fsm
  {
    ExecutedKeepsPhase(t, txs);
  }

  function Made(startN: nat, endN: nat, prev: Hash): Delta
    requires startN <= endN
  {
    var d := Delta("a", "S0", 0, endN - startN, startN, endN, prev, 0, false, NoHash);
    d.(hash := d.CalcDeltaHash())
  }

  /** A second segment that continues the first after its ack makes a second ack due. */
  lemma TwoSegmentsTwoAcks() returns (t: Target, events: seq<Event>)
    ensures t.account.Some? && t.ctx.Some? && t.ctx.value.fsm == WaitSyncIni
    ensures |Run("a", "S1", t, events).acks| == 2
  {
    hide Run, Step, Made;
    t := Target(Some(Account(10, 0)), Some(Context(WaitSyncIni, 0, NoHash, false)), false, []);
    var e0, e1 := Deliver(Made(0, 1, NoHash)), Block([Spend(1, 0, true, false)], 0);
    FirstAck(t, e0, e1);
    var h2 := Step("a", "S1", Step("a", "S1", History(t, [], []), e0), e1);
    var e2, e3 := Deliver(Made(2, 3, h2.acks[0].hash)), Block([Spend(3, 0, true, false)], 0);
    SecondAck(h2, e2, e3);
    events := [e0, e1, e2, e3];
    RunFrom("a", "S1", t, [], e0);
    RunFrom("a", "S1", t, [e0], e1);
    RunFrom("a", "S1", t, [e0, e1], e2);
    RunFrom("a", "S1", t, [e0, e1, e2], e3);
    assert [] + [e0] == [e0] && [e0] + [e1] == [e0, e1] && [e0, e1] + [e2] == [e0, e1, e2];
    assert [e0, e1, e2] + [e3] == events;
  }

  lemma RunFrom(address: string, shard: string, t: Target, events: seq<Event>, e: Event)
    requires t.account.Some?
    ensures Run(address, shard, t, []) == History(t, [], [])
    ensures Run(address, shard, t, events + [e]) == Step(address, shard, Run(address, shard, t, events), e)
  {
    assert (events + [e])[..|events|] == events;
  }

  lemma FirstAck(t: Target, e0: Event, e1: Event)
    requires t == Target(Some(Account(10, 0)), Some(Context(WaitSyncIni, 0, NoHash, false)), false, [])
    requires e0 == Deliver(Made(0, 1, NoHash)) && e1 == Block([Spend(1, 0, true, false)], 0)
    ensures
      var h := Step("a", "S1", Step("a", "S1", History(t, [], []), e0), e1);
      && |h.acks| == 1 && h.target.account == Some(Account(10, 2)) && !h.target.aborted
      && h.target.ctx == Some(Context(AckSent, 2, h.acks[0].hash, false))
  {
    OneTx(Delivered(t, e0.d), Spend(1, 0, true, false));
  }

  lemma SecondAck(h: History, e2: Event, e3: Event)
    requires |h.acks| == 1 && h.target.account == Some(Account(10, 2)) && !h.target.aborted
    requires h.target.ctx == Some(Context(AckSent, 2, h.acks[0].hash, false))
    requires e2 == Deliver(Made(2, 3, h.acks[0].hash)) && e3 == Block([Spend(3, 0, true, false)], 0)
    ensures |Step("a", "S1", Step("a", "S1", h, e2), e3).acks| == 2
  {
    OneTx(Delivered(h.target, e2.d), Spend(3, 0, true, false));
  }

  lemma OneTx(t: Target, tx: Tx)
    requires t.account.Some?
    ensures AllExecuted(t, [tx]) == Executed(t, tx)
    ensures tx.Spend? && tx.isNew ==> FirstNewValue([tx]) == Some(tx.value)
  {
    assert [tx][..0] == [];
  }

  // ---------------------------------------------------------------------------
  // Early deltas

  /** A first delta that comes before the block with the account survives that block
      exactly when the account's old nonce on this shard was below the segment (and the
      balance it leads to is not negative): at the nonce itself the delta is applied to
      the old state, which the block then overwrites. */
  lemma EarlyDelta(address: string, shard: string, t: Target, d: Delta, mig2: Mig2, now: int)
    requires t.account.Some? && t.ctx.Some? && !t.aborted && t.pending == []
    requires t.ctx.value.lastDeltaHash == NoHash && d.startN == mig2.lastCN
    requires d.address == address && !d.ack && d.Sound() && d.startN < d.endN
    ensures
      var u := BlockEnded(address, shard, Arrived(address, t, d), Some(mig2), [], now).0;
      u.account == Some(Account(mig2.value + d.deltaBalance, d.endN)) && !u.aborted <==>
      t.account.value.nonce < d.startN && mig2.value + d.deltaBalance >= 0
  {
    hide BlockEnded, Flushed, Inbound;
    EarlyFlushed(t, d, mig2);
    EmptyBlock(address, shard, Arrived(address, t, d), mig2, now);
  }

  lemma EmptyBlock(address: string, shard: string, t: Target, mig2: Mig2, now: int)
    requires t.account.Some?
    ensures
      var u, v := BlockEnded(address, shard, t, Some(mig2), [], now).0, Flushed(Moved(t, Some(mig2)));
      u.account == v.account && u.aborted == v.aborted
  {
    hide Flushed, Ack;
  }

  lemma EarlyFlushed(t: Target, d: Delta, mig2: Mig2)
    requires t.account.Some? && t.ctx.Some? && !t.aborted && t.pending == []
    requires t.ctx.value.lastDeltaHash == NoHash && d.startN == mig2.lastCN
    requires !d.ack && d.Sound() && d.startN < d.endN
    ensures Delivered(t, d).account.Some?
    ensures
      var u := Flushed(Moved(Delivered(t, d), Some(mig2)));
      u.account == Some(Account(mig2.value + d.deltaBalance, d.endN)) && !u.aborted <==>
      t.account.value.nonce < d.startN && mig2.value + d.deltaBalance >= 0
  {
    var u := Moved(Delivered(t, d), Some(mig2));
    if t.account.value.nonce < d.startN {
      assert u.pending == [d] && [d][..0] == [];
      assert AllInbound(u.(pending := []), [d]) == InboundOrAbort(u.(pending := []), d);
    } else {
      assert u.pending == [];
    }
  }

  // ---------------------------------------------------------------------------
  // The exchange of one migration, by full states and by deltas

  /** The source account has moved from the state it left (balance out, nonce lastCN, which
      is also what the target was given) to its state at the synchronization. The balance
      it left with is on record there until an announcement takes it off. */
  datatype Exchange = Exchange(out: int, recorded: bool, lastCN: nat, source: Account)

  /** The target takes the state of the source as it is. */
  function SyncInbound(t: Target, st: Account): Target {
    t.(account := Some(st), ctx := if t.ctx.Some? then Some(t.ctx.value.(fsm := SyncApplied)) else None)
  }

  /** The state the target sends back once it has executed a new transaction on what it was
      given, and its context after that. */
  function SyncAck(t: Target): (Target, Option<Account>) {
    if !t.aborted && t.ctx.Some? && t.ctx.value.fsm == SyncApplied && t.ctx.value.pendingSyncAck && t.account.Some? then
      (t.(ctx := Some(t.ctx.value.(fsm := AckSent, pendingSyncAck := false))), t.account)
    else (t, None)
  }

  /** The target as the migration has left it, waiting for the state of the source. */
  function Waiting(x: Exchange): Target {
    Target(Some(Account(x.out, x.lastCN)), Some(Context(WaitSyncIni, x.lastCN, NoHash, false)), false, [])
  }

  /** The target after the full state and the transactions of a block. */
  function FullyRun(x: Exchange, txs: seq<Tx>): (t: Target)
    ensures t.account.Some?
  {
    AllExecuted(SyncInbound(Waiting(x), x.source), txs)
  }

  /** A new transaction of the block carries its right nonce. */
  predicate NewRuns(x: Exchange, txs: seq<Tx>) {
    FullyRun(x, txs).ctx.Some? && FullyRun(x, txs).ctx.value.pendingSyncAck
  }

  /** What the block does to the balance. */
  function Effect(x: Exchange, txs: seq<Tx>): int {
    Total(TxEntries(SyncInbound(Waiting(x), x.source), txs))
  }

  /** Full states: the target takes the state of the source and executes a block; the
      source takes the state that comes back, if any. */
  function FullExchange(x: Exchange, txs: seq<Tx>): (Account, Account) {
    var (after, ack) := SyncAck(FullyRun(x, txs));
    (after.account.value, if ack.Some? then ack.value else x.source)
  }

  lemma {:induction false} ExecutedAlike(t: Target, u: Target, txs: seq<Tx>)
    requires t.account.Some? && u.account.Some? && t.ctx.Some? && u.ctx.Some?
    requires t.account.value.nonce == u.account.value.nonce
    requires t.ctx.value.pendingSyncAck == u.ctx.value.pendingSyncAck
    ensures
      var t', u' := AllExecuted(t, txs), AllExecuted(u, txs);
      && t'.ctx.Some? && u'.ctx.Some? && t'.account.value.nonce == u'.account.value.nonce
      && t'.account.value.balance - u'.account.value.balance == t.account.value.balance - u.account.value.balance
      && t'.ctx.value.pendingSyncAck == u'.ctx.value.pendingSyncAck
  {
    if txs != [] { ExecutedAlike(t, u, txs[..|txs| - 1]); }
  }

  /** Blocks change nothing in the context but that an ack is due. */
  lemma {:induction false} ExecutedContext(t: Target, txs: seq<Tx>)
    requires t.account.Some? && t.ctx.Some?
    ensures
      var u := AllExecuted(t, txs);
      && u.ctx.Some? && u.ctx.value.(pendingSyncAck := false) == t.ctx.value.(pendingSyncAck := false)
      && u.account.value.nonce >= t.account.value.nonce && u.aborted == t.aborted
      && (u.ctx.value.pendingSyncAck && !t.ctx.value.pendingSyncAck ==>
            && u.account.value.nonce > t.account.value.nonce
            && exists i :: 0 <= i < |txs| && txs[i].Spend? && txs[i].isNew)
  {
    if txs != [] {
      var front := txs[..|txs| - 1];
      ExecutedContext(t, front);
      assert forall i :: 0 <= i < |front| ==> front[i] == txs[i];
    }
  }

  lemma {:induction false} SomeNew(txs: seq<Tx>, i: nat)
    requires i < |txs| && txs[i].Spend? && txs[i].isNew
    ensures FirstNewValue(txs).Some?
  {
    if i > 0 { SomeNew(txs[1..], i - 1); }
  }

  /** What holds after a block with a new transaction that ran. */
  lemma NewHasRun(x: Exchange, txs: seq<Tx>)
    ensures
      var v := FullyRun(x, txs);
      && v.ctx.Some? && v.account.value.balance == x.source.balance + Effect(x, txs)
      && (NewRuns(x, txs) ==> v.account.value.nonce > x.source.nonce && FirstNewValue(txs).Some?)
  {
    var u := SyncInbound(Waiting(x), x.source);
    TxsExplained([], x.source, u, txs);
    assert [] + TxEntries(u, txs) == TxEntries(u, txs);
    ExecutedContext(u, txs);
    if NewRuns(x, txs) {
      var i :| 0 <= i < |txs| && txs[i].Spend? && txs[i].isNew;
      SomeNew(txs, i);
    }
  }

  /** Full states leave both shards with the state of the source and the effect of the
      block, once a new transaction of it has run. */
  lemma FullExchangeAgrees(x: Exchange, txs: seq<Tx>)
    ensures
      var (target, source) := FullExchange(x, txs);
      && target.balance == x.source.balance + Effect(x, txs)
      && if NewRuns(x, txs) then source == target else source == x.source
  {
    hide AllExecuted;
    NewHasRun(x, txs);
    ExecutedContext(SyncInbound(Waiting(x), x.source), txs);
  }

  /** The delta that the source sends; without a record it takes its balance as unchanged. */
  function StateIni(x: Exchange, address: string, shard: string, prev: Hash, now: int): Delta
    requires x.source.nonce >= x.lastCN
  {
    var deltaBalance := if x.recorded then x.source.balance - x.out else 0;
    var d := Delta(address, shard, deltaBalance, x.source.nonce - x.lastCN, x.lastCN, x.source.nonce,
                   prev, now, false, NoHash);
    d.(hash := d.CalcDeltaHash())
  }

  /** The state of an account after a delta, unless its balance would become negative. */
  function WithDelta(a: Account, d: Delta): Option<Account> {
    if d.deltaNonce < 0 || a.balance + d.deltaBalance < 0 then None
    else Some(Account(a.balance + d.deltaBalance, a.nonce + d.deltaNonce))
  }

  /** The source applies an ack for its account, or keeps its state. */
  function AckApplied(address: string, a: Account, d: Delta): Account {
    if d.ack && d.address == address && d.Sound() && WithDelta(a, d).Some? then WithDelta(a, d).value else a
  }

  function Handed(x: Exchange, address: string, shard: string, prev: Hash, now: int): (t: Target)
    requires x.source.nonce >= x.lastCN
    ensures t.account.Some?
  {
    Arrived(address, Waiting(x), StateIni(x, address, shard, prev, now))
  }

  /** Deltas: the target, which holds what mig2 gave it, receives the delta and executes
      a block; the source receives the ack, if any. */
  function DeltaExchange(x: Exchange, txs: seq<Tx>, address: string, shards: (string, string), prev: Hash, now: int)
    : (Account, Account)
    requires x.source.nonce >= x.lastCN
  {
    var (w, ack) := BlockEnded(address, shards.1, Handed(x, address, shards.0, prev, now), None, txs, now);
    (w.account.value, if ack.Some? then AckApplied(address, x.source, ack.value) else x.source)
  }

  /** The target is not asked for a negative balance. */
  predicate Solvent(x: Exchange) {
    x.source.nonce > x.lastCN ==> (if x.recorded then x.source.balance else x.out) >= 0
  }

  /** The delta brings the target to the state of the source. */
  predicate HandsOver(x: Exchange) {
    x.source.balance == x.out || (x.source.nonce > x.lastCN && x.recorded)
  }

  /** What the source takes for a new transaction of the block is all that the block does:
      the value of the first new one, which it can pay. */
  predicate AckTells(x: Exchange, txs: seq<Tx>) {
    NewRuns(x, txs) ==>
      var first := FirstNewValue(txs);
      first.Some? && first.value <= x.source.balance && Effect(x, txs) == -(first.value as int)
  }

  lemma HandedOver(x: Exchange, address: string, shard: string, prev: Hash, now: int)
    requires x.source.nonce >= x.lastCN && Solvent(x)
    ensures
      var u := Handed(x, address, shard, prev, now);
      && u.account.value.nonce == x.source.nonce && (u.account.value == x.source <==> HandsOver(x))
      && u.ctx.Some? && !u.aborted
      && u.ctx.value.fsm == SyncApplied && u.ctx.value.lastCN == x.source.nonce && !u.ctx.value.pendingSyncAck
  {
  }

  lemma AckedAs(x: Exchange, txs: seq<Tx>, address: string, shard: string, t: Target, now: int)
    requires t.account == FullyRun(x, txs).account && t.ctx.Some? && !t.aborted
    requires t.ctx.value.fsm == SyncApplied && t.ctx.value.lastCN == x.source.nonce
    requires t.ctx.value.pendingSyncAck <==> NewRuns(x, txs)
    ensures
      var ack := AckDue(address, shard, t, txs, now);
      && (ack.Some? <==> NewRuns(x, txs))
      && (ack.Some? ==> (AckApplied(address, x.source, ack.value) == t.account.value <==> AckTells(x, txs)))
  {
    hide FullyRun, NewRuns, Effect;
    NewHasRun(x, txs);
    if NewRuns(x, txs) {
      var a, ack := t.account.value, AckDue(address, shard, t, txs, now).value;
      assert ack.Sound() && ack.address == address && ack.deltaNonce == a.nonce - x.source.nonce;
    }
  }

  /** Deltas leave both shards as full states do exactly when the delta hands the state of
      the source over and the ack tells what the block has done; the ack that the source
      then applies is the target's, for the account. */
  lemma DeltaRefinesFull(x: Exchange, txs: seq<Tx>, address: string, shards: (string, string), prev: Hash, now: int)
    requires x.source.nonce >= x.lastCN && Solvent(x)
    ensures DeltaExchange(x, txs, address, shards, prev, now) == FullExchange(x, txs)
            <==> HandsOver(x) && AckTells(x, txs)
    ensures
      var (target, ack) := BlockEnded(address, shards.1, Handed(x, address, shards.0, prev, now), None, txs, now);
      ack.Some? ==> target.account.Some? && TellsOf(address, shards.1, ack.value, target.account.value, now)
  {
    hide AllExecuted, Handed, AckDue, AckTells, AckApplied;
    AckIsOwn(address, shards.1, Handed(x, address, shards.0, prev, now), None, txs, now);
    var u, v := Handed(x, address, shards.0, prev, now), SyncInbound(Waiting(x), x.source);
    HandedOver(x, address, shards.0, prev, now);
    ExecutedAlike(u, v, txs);
    ExecutedContext(u, txs);
    ExecutedContext(v, txs);
    if HandsOver(x) {
      AckedAs(x, txs, address, shards.1, AllExecuted(u, txs), now);
      NothingToTell(x, txs);
    }
  }

  lemma NothingToTell(x: Exchange, txs: seq<Tx>)
    ensures !NewRuns(x, txs) ==> AckTells(x, txs)
  {
  }

  /** When they do and a new transaction has run, both shards hold the same state. */
  lemma BothShardsAgree(x: Exchange, txs: seq<Tx>, address: string, shards: (string, string), prev: Hash, now: int)
    requires x.source.nonce >= x.lastCN && Solvent(x) && HandsOver(x) && AckTells(x, txs) && NewRuns(x, txs)
    ensures
      var (target, source) := DeltaExchange(x, txs, address, shards, prev, now);
      target == source && target.balance == x.source.balance - FirstNewValue(txs).value
  {
    hide NewRuns, FullyRun, Effect, DeltaExchange, FullExchange;
    DeltaRefinesFull(x, txs, address, shards, prev, now);
    FullExchangeAgrees(x, txs);
  }

  /** With one new transaction, numbered by the nonce that the target holds: exactly when
      the state is handed over, the source can pay the transaction, and it does not go back
      to the account, unless it moves nothing. */
  lemma OneNewRefines(x: Exchange, value: nat, toSelf: bool, address: string, shards: (string, string), prev: Hash,
                      now: int)
    requires x.source.nonce >= x.lastCN
    ensures
      var nonce := Handed(x, address, shards.0, prev, now).account.value.nonce;
      DeltaExchange(x, [Spend(nonce, value, true, toSelf)], address, shards, prev, now)
        == FullExchange(x, [Spend(x.source.nonce, value, true, toSelf)])
      <==> HandsOver(x) && value <= x.source.balance && (value == 0 || !toSelf)
  {
    var u := Handed(x, address, shards.0, prev, now);
    var tx := Spend(u.account.value.nonce, value, true, toSelf);
    OneTx(u, tx);
    OneTx(SyncInbound(Waiting(x), x.source), Spend(x.source.nonce, value, true, toSelf));
  }

  // ---------------------------------------------------------------------------
  // The target shard, updated in place

  class TargetShard {
    const address: string
    const shard: string
    var account: Option<Account>
    var fsm: Fsm
    var lastCN: nat
    var lastDeltaHash: Hash
    var pendingSyncAck: bool
    var hasCtx: bool
    var aborted: bool
    var pending: seq<Delta>
    const pool: TargetPool

    function State(): Target
      reads this
    {
      var ctx := Context(fsm, lastCN, lastDeltaHash, pendingSyncAck);
      Target(account, if hasCtx then Some(ctx) else None, aborted, pending)
    }

    constructor (address: string, shard: string, account: Option<Account>, pool: TargetPool)
      ensures State() == Target(account, None, false, []) && this.address == address && this.shard == shard
      ensures this.pool == pool
    {
      this.address, this.shard, this.account, this.pool := address, shard, account, pool;
      hasCtx, aborted, pending := false, false, [];
      fsm, lastCN, lastDeltaHash, pendingSyncAck := Active, 0, NoHash, false;
    }

    method EnqueuePending(d: Delta)
      modifies this`pending
      ensures pending == Enqueued(old(pending), d)
      ensures (exists e :: e in old(pending) && e.startN == d.startN && e.endN == d.endN) ==> pending == old(pending)
      ensures (forall e :: e in old(pending) ==> !(e.startN == d.startN && e.endN == d.endN)) ==>
                pending == old(pending) + [d]
    {
      for i := 0 to |pending|
        invariant pending == old(pending)
        invariant forall j :: 0 <= j < i ==> !(pending[j].startN == d.startN && pending[j].endN == d.endN)
      {
        if pending[i].startN == d.startN && pending[i].endN == d.endN {
          return;
        }
      }
      pending := pending + [d];
    }

    /** ApplyMVSSAccountDelta on this shard. */
    method ApplyAccountDelta(d: Delta) returns (ok: bool)
      modifies this`account
      ensures ok <==> old(account).Some? && WithDelta(old(account).value, d).Some?
      ensures account == if ok then WithDelta(old(account).value, d) else old(account)
    {
      if d.deltaNonce < 0 || account.None? {
        return false;
      }
      var next := account.value.balance + d.deltaBalance;
      if next < 0 {
        return false;
      }
      account := Some(Account(next, account.value.nonce + d.deltaNonce));
      return true;
    }

    /** An applied delta also moves the account's new transactions to the head of the pool. */
    method ApplyDeltaInbound(d: Delta) returns (ok: bool)
      modifies this, pool
      ensures (State(), ok) == Inbound(old(State()), d)
      ensures ok ==> !old(aborted) && hasCtx && d.endN >= d.startN && d.deltaNonce == d.endN - d.startN
                     && d.hash == d.CalcDeltaHash()
      ensures pool.State() == if ok && old(account).Some? && d.startN <= old(account).value.nonce < d.endN
                              then Promotes(old(pool.State()), address, pool.mig1Time, d.endN)
                              else old(pool.State())
      ensures pool.State() == PromotedFor(old(State()), d, address, pool.mig1Time, old(pool.State()))
    {
      hide Promotes;
      if aborted || !hasCtx {
        return false;
      }
      if d.deltaNonce < 0 || d.endN < d.startN {
        return false;
      }
      if d.deltaNonce != d.endN - d.startN || d.CalcDeltaHash() != d.hash {
        return false;
      }
      if account.Some? && account.value.nonce >= d.endN {
        if fsm == WaitSyncIni {
          fsm := SyncApplied;
        }
        if lastCN < d.endN {
          lastCN := d.endN;
        }
        lastDeltaHash := d.hash;
        return true;
      }
      if account.None? || account.value.nonce < d.startN {
        EnqueuePending(d);
        return true;
      }
      if account.value.nonce != d.startN {
        return false;
      }
      if lastDeltaHash != NoHash && lastDeltaHash != d.prevHash {
        return false;
      }
      var applied := ApplyAccountDelta(d);
      if !applied {
        return false;
      }
      lastDeltaHash, lastCN, fsm := d.hash, d.endN, SyncApplied;
      pool.PromoteMigNewTxsToHead(address, Some(account.value.nonce));
      return true;
    }

    method AbortDelta()
      modifies this`aborted, this`fsm
      ensures State() == Abort(old(State())) && aborted && (hasCtx ==> fsm == Active)
    {
      aborted := true;
      if hasCtx {
        fsm := Active;
      }
    }

    method ApplyOrAbort(d: Delta)
      modifies this, pool
      ensures State() == InboundOrAbort(old(State()), d)
      ensures
        var (u, ok) := Inbound(old(State()), d);
        if ok then State() == u
        else aborted && hasCtx == old(hasCtx) && (hasCtx ==> fsm == Active) && account == u.account
             && pending == u.pending
      ensures pool.State() == PromotedFor(old(State()), d, address, pool.mig1Time, old(pool.State()))
    {
      var ok := ApplyDeltaInbound(d);
      if !ok {
        AbortDelta();
      }
    }

    /** Acks are for the source: here they change nothing. */
    method HandleDelta(d: Delta)
      modifies this, pool
      ensures State() == Arrived(address, old(State()), d)
      ensures d.address != address || d.ack ==> unchanged(this)
      ensures d.address == address && !d.ack ==>
                if hasCtx then State() == InboundOrAbort(old(State()), d)
                else Kept(old(pending), d, pending) && State() == old(State()).(pending := pending)
      ensures pool.State() == if d.ack || d.address != address then old(pool.State()) else
                PromotedFor(old(State()), d, address, pool.mig1Time, old(pool.State()))
    {
      if d.address != address || d.ack {
        return;
      }
      if hasCtx {
        ApplyOrAbort(d);
        return;
      }
      EnqueuePending(d);
    }

    method FlushPending()
      modifies this, pool
      ensures State() == Flushed(old(State()))
      ensures pool.State() == AllPromoted(old(State()).(pending := []), old(pending), address, pool.mig1Time,
                                        old(pool.State()))
    {
      hide InboundOrAbort, PromotedFor;
      var list := pending;
      pending := [];
      ghost var t := State();
      for i := 0 to |list|
        invariant State() == AllInbound(t, list[..i])
        invariant pool.State() == AllPromoted(t, list[..i], address, pool.mig1Time, old(pool.State()))
      {
        assert list[..i + 1][..i] == list[..i];
        ApplyOrAbort(list[i]);
      }
      assert list[..|list|] == list;
    }

    method ExecuteTx(tx: Tx)
      requires account.Some?
      modifies this`account, this`pendingSyncAck
      ensures State() == Executed(old(State()), tx)
      ensures account.Some? && match tx
              case Credit(value) => account.value.balance == old(account).value.balance + value
                                    && account.value.nonce == old(account).value.nonce
              case Spend(nonce, value, isNew, toSelf) =>
                var right := nonce == old(account).value.nonce;
                && account.value.nonce == old(account).value.nonce + (if right then 1 else 0)
                && account.value.balance == old(account).value.balance - (if right && !toSelf then value else 0)
                && (pendingSyncAck <==> old(pendingSyncAck) || (right && isNew && hasCtx))
      ensures tx.Credit? ==> pendingSyncAck == old(pendingSyncAck)
    {
      match tx {
        case Credit(value) =>
          account := Some(account.value.(balance := account.value.balance + value));
        case Spend(nonce, value, isNew, toSelf) =>
          if nonce != account.value.nonce {
            return;
          }
          if hasCtx && isNew {
            pendingSyncAck := true;
          }
          account := Some(Account(account.value.balance - value, account.value.nonce + 1));
          if toSelf {
            account := Some(account.value.(balance := account.value.balance + value));
          }
      }
    }

    /** The value of the first new transaction the account sends in the block. */
    method BlockNewValue(txs: seq<Tx>) returns (value: Option<nat>)
      ensures value == FirstNewValue(txs)
    {
      for i := 0 to |txs|
        invariant FirstNewValue(txs) == FirstNewValue(txs[i..])
      {
        assert txs[i..][0] == txs[i] && txs[i..][1..] == txs[i + 1..];
        if txs[i].Spend? && txs[i].isNew {
          return Some(txs[i].value);
        }
      }
      return None;
    }

    method SendDeltaAck(txs: seq<Tx>, now: int) returns (ack: Option<Delta>)
      requires hasCtx
      modifies this`fsm, this`pendingSyncAck, this`lastDeltaHash, this`lastCN
      ensures ack == Ack(address, shard, old(State()), txs, now)
      ensures State() == if ack.Some? then old(State()).(ctx := Some(AckSentFor(old(State()).ctx.value, ack.value)))
                         else old(State())
      ensures ack.Some? <==>
                && old(fsm) == SyncApplied && account.Some?
                && (account.value.nonce > old(lastCN) || (account.value.nonce > 0 && exists i :: FirstNew(txs, i)))
      ensures ack.None? ==> unchanged(this)
      ensures ack.Some? ==>
                && TellsOf(address, shard, ack.value, account.value, now) && ack.value.prevHash == old(lastDeltaHash)
                && ack.value.startN == (if old(lastCN) < ack.value.endN then old(lastCN) else ack.value.endN - 1)
                && (forall i :: FirstNew(txs, i) ==> ack.value.deltaBalance == -(txs[i].value as int))
                && ((forall i :: !FirstNew(txs, i)) ==> ack.value.deltaBalance == 0)
                && fsm == AckSent && !pendingSyncAck && lastDeltaHash == ack.value.hash && lastCN == ack.value.endN
    {
      if fsm != SyncApplied || account.None? {
        return None;
      }
      var startN, endN := lastCN, account.value.nonce;
      var newValue := BlockNewValue(txs);
      forall i ensures FirstNew(txs, i) ==> newValue == Some(txs[i].value) { FirstNewIs(txs, i); }
      FirstNewIs(txs, 0);
      if endN <= startN && newValue.Some? && endN > 0 {
        startN := endN - 1;
      }
      if endN <= startN {
        return None;
      }
      var before := account.value.balance;
      if newValue.Some? {
        before := before + newValue.value;
      }
      var d := Delta(address, shard, account.value.balance - before, endN - startN, startN, endN, lastDeltaHash, now,
                     true, NoHash);
      d := d.(hash := d.CalcDeltaHash());
      fsm, pendingSyncAck, lastDeltaHash, lastCN := AckSent, false, d.hash, endN;
      return Some(d);
    }

    /** The full state of the source, on its arrival; the account's new transactions move
        to the head of the pool. */
    method ApplySyncInbound(st: Account)
      modifies this`account, this`fsm, pool
      ensures State() == SyncInbound(old(State()), st)
      ensures pool.State() == if hasCtx then Promotes(old(pool.State()), address, pool.mig1Time, st.nonce)
                            else old(pool.State())
    {
      account := Some(st);
      if hasCtx {
        fsm := SyncApplied;
        pool.PromoteMigNewTxsToHead(address, Some(st.nonce));
      }
    }

    /** The full state sent back at the end of a block. */
    method SendSyncAck() returns (ack: Option<Account>)
      modifies this`fsm, this`pendingSyncAck
      ensures (State(), ack) == SyncAck(old(State()))
      ensures ack == if !aborted && hasCtx && old(fsm) == SyncApplied && old(pendingSyncAck) then account else None
      ensures ack.Some? ==> fsm == AckSent && !pendingSyncAck
      ensures ack.None? ==> unchanged(this)
    {
      if aborted || !hasCtx || fsm != SyncApplied || !pendingSyncAck || account.None? {
        return None;
      }
      fsm, pendingSyncAck := AckSent, false;
      return account;
    }

    method CommitBlock(mig2: Option<Mig2>, txs: seq<Tx>, now: int) returns (ack: Option<Delta>)
      requires account.Some?
      modifies this, pool
      ensures (State(), ack) == BlockEnded(address, shard, old(State()), mig2, txs, now)
      ensures ack.Some? ==> account.Some? && TellsOf(address, shard, ack.value, account.value, now) && fsm == AckSent
      ensures pool.State() == if mig2.None? then old(pool.State()) else
                var run := AllExecuted(Moved(old(State()), mig2), txs);
                AllPromoted(run.(pending := []), run.pending, address, pool.mig1Time, old(pool.State()))
    {
      if mig2.Some? {
        account := Some(Account(mig2.value.value, mig2.value.lastCN));
      }
      ghost var t := State();
      for i := 0 to |txs|
        invariant account.Some? && State() == AllExecuted(t, txs[..i]) && pool.State() == old(pool.State())
      {
        assert txs[..i + 1][..i] == txs[..i];
        ExecuteTx(txs[i]);
      }
      assert txs[..|txs|] == txs;
      if mig2.Some? {
        FlushPending();
      }
      ack := None;
      if !aborted && hasCtx && fsm == SyncApplied && pendingSyncAck {
        ack := SendDeltaAck(txs, now);
      }
    }
  }

  /** The source side of the exchange: its state of the account, the balance it left with
      while that is on record, and its context. */
  class SourceShard {
    const address: string
    const shard: string
    const ctx: MigAccountCtx
    var account: Account
    var lastCN: nat
    var lastDeltaHash: Hash
    var balanceBeforeOut: Option<int>
    var aborted: bool
    const pool: SourcePool
    const selfShard: int
    const shardTable: map<string, int>

    constructor (address: string, shard: string, ctx: MigAccountCtx, account: Account, lastCN: nat, pool: SourcePool,
                 selfShard: int, shardTable: map<string, int>)
      ensures this.address == address && this.shard == shard && this.ctx == ctx && this.account == account
      ensures balanceBeforeOut == None && this.lastCN == lastCN && lastDeltaHash == NoHash && !aborted
      ensures this.pool == pool && this.selfShard == selfShard && this.shardTable == shardTable
    {
      this.pool, this.selfShard, this.shardTable := pool, selfShard, shardTable;
      this.address, this.shard, this.ctx, this.account := address, shard, ctx, account;
      balanceBeforeOut, this.lastCN, lastDeltaHash, aborted := None, lastCN, NoHash, false;
    }

    /** The exchange as this shard sees it, when the target was given a balance out. */
    function Exchanged(out: int): Exchange
      reads this
      requires balanceBeforeOut.Some? ==> out == balanceBeforeOut.value
    {
      Exchange(out, balanceBeforeOut.Some?, lastCN, account)
    }

    /** The message is about this account, and its sender is the shard it moved to. */
    predicate Expects(d: Delta, from: string) {
      d.address == address && from in shardTable && shardTable[from] == ctx.targetShard
    }

    /** The migration is over on this shard, and what was paused may go on. */
    method Abort()
      modifies this`aborted, ctx`syncNeeded, ctx`fsm, ctx`pausedTxIDs
      ensures aborted && !ctx.syncNeeded && ctx.fsm == Active && ctx.pausedTxIDs == {}
    {
      aborted := true;
      ctx.syncNeeded, ctx.fsm, ctx.pausedTxIDs := false, Active, {};
    }

    /** The delta of the account since it was left. It is sent once; a nonce that went back
        aborts the migration. */
    method SendStateIni(now: int) returns (d: Option<Delta>)
      modifies this`aborted, ctx`syncNeeded, ctx`fsm, ctx`pausedTxIDs
      ensures d.Some? <==> old(ctx.fsm) != SyncOut && account.nonce >= lastCN
      ensures d.Some? ==> ctx.fsm == SyncOut && aborted == old(aborted)
                          && ctx.syncNeeded == old(ctx.syncNeeded) && ctx.pausedTxIDs == old(ctx.pausedTxIDs)
      ensures d.Some? ==>
                && d.value.address == address && d.value.fromShard == shard && !d.value.ack
                && d.value.startN == lastCN && d.value.endN == account.nonce
                && d.value.deltaBalance ==
                   (if balanceBeforeOut.Some? then account.balance - balanceBeforeOut.value else 0)
                && d.value.prevHash == lastDeltaHash && d.value.requestTime == now && d.value.Sound()
      ensures d.Some? ==>
                forall out :: (balanceBeforeOut.Some? ==> out == balanceBeforeOut.value) ==>
                  d.value == StateIni(Exchanged(out), address, shard, lastDeltaHash, now)
      ensures old(ctx.fsm) != SyncOut && d.None? ==>
                aborted && !ctx.syncNeeded && ctx.fsm == Active && ctx.pausedTxIDs == {}
      ensures old(ctx.fsm) == SyncOut ==> unchanged(this) && unchanged(ctx)
    {
      if ctx.fsm == SyncOut {
        return None;
      }
      var before := if balanceBeforeOut.Some? then balanceBeforeOut.value else account.balance;
      var deltaNonce := account.nonce - lastCN;
      if deltaNonce < 0 {
        Abort();
        return None;
      }
      var delta := Delta(address, shard, account.balance - before, deltaNonce, lastCN, account.nonce,
                         lastDeltaHash, now, false, NoHash);
      ctx.fsm := SyncOut;
      return Some(delta.(hash := delta.CalcDeltaHash()));
    }

    /** An ack is taken if it is sound and leaves no negative balance. */
    method OnDeltaAck(d: Delta) returns (ok: bool)
      requires d.address == address
      modifies this`account, this`lastDeltaHash, this`lastCN
      ensures ok <==> && d.ack && d.endN >= d.startN && d.deltaNonce == d.endN - d.startN && d.hash == d.CalcDeltaHash()
                      && old(account).balance + d.deltaBalance >= 0
      ensures ok ==> account == Account(old(account).balance + d.deltaBalance, old(account).nonce + d.endN - d.startN)
      ensures account == AckApplied(address, old(account), d)
      ensures ok ==> lastCN == d.endN && lastDeltaHash == d.hash
      ensures !ok ==> unchanged(this)
    {
      if !d.ack || d.deltaNonce < 0 || d.endN < d.startN {
        return false;
      }
      if d.deltaNonce != d.endN - d.startN || d.CalcDeltaHash() != d.hash {
        return false;
      }
      var next := account.balance + d.deltaBalance;
      if next < 0 {
        return false;
      }
      account := Account(next, account.nonce + d.deltaNonce);
      lastDeltaHash, lastCN := d.hash, d.endN;
      return true;
    }

    /** An ack that has arrived: it must be for this account, and from the shard that the
        account moved to. Once it is taken the source goes on with what it paused, which
        moves to the head of its pool; and else it aborts the migration. Its account changes
        only in the first case. */
    method HandleAck(d: Delta, from: string) returns (taken: bool)
      requires d.ack
      modifies this, pool, ctx`syncNeeded, ctx`fsm, ctx`pausedTxIDs
      ensures taken <==> && Expects(d, from) && d.Sound() && old(account).balance + d.deltaBalance >= 0
      ensures !Expects(d, from) ==> unchanged(this) && unchanged(ctx) && unchanged(pool)
      ensures account == (if Expects(d, from) then AckApplied(address, old(account), d) else old(account))
      ensures taken ==>
                account == Account(old(account).balance + d.deltaBalance, old(account).nonce + d.endN - d.startN)
      ensures balanceBeforeOut == old(balanceBeforeOut)
      ensures Expects(d, from) ==> !ctx.syncNeeded && ctx.fsm == Active && ctx.pausedTxIDs == {}
      ensures if taken then aborted == old(aborted) && lastCN == d.endN && lastDeltaHash == d.hash
              else aborted == (old(aborted) || Expects(d, from)) && lastCN == old(lastCN)
                   && lastDeltaHash == old(lastDeltaHash)
      ensures if taken && ctx.firstNewTxID > 0
              then (pool.queue, pool.side) == SuffixPromoted(old(pool.queue), old(pool.side), pool.usesSide,
                                                SuffixOf(address, ctx.View(), selfShard), account.nonce)
              else unchanged(pool)
    {
      if d.address != address || from !in shardTable || shardTable[from] != ctx.targetShard {
        return false;
      }
      taken := OnDeltaAck(d);
      if taken {
        ctx.ResumeAfterSyncAck();
        pool.PromoteSuffixOldAfterAck(address, ctx.View(), selfShard, Some(account.nonce));
      } else {
        Abort();
      }
    }
  }
}
