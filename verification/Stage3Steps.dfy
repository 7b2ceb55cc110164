/** The methods of the contexts, the pools and the target take the steps that the state
    machine of Stage3 allows: what a source context does when transactions arrive, when a
    block ends and when the ack comes; what is packed on both shards; and what the target
    does with the state of the source and with its blocks. */
module Stage3Steps {
  import opened Wrappers
  import opened MigCtx
  import S = Stage3
  import D = DeltaSync
  import P = TxPool
  import T = Transactions

  // ---------------------------------------------------------------------------
  // The source context

  ghost predicate SourceIs(ctx: MigAccountCtx, s: S.Source)
    reads ctx
  {
    && s.reg == ctx.Registered() && s.firstNew == ctx.firstNewTxID && s.fsm == ctx.fsm
    && s.syncNeeded == ctx.syncNeeded
    && (forall id :: id in s.committed <==> id in ctx.committedTx)
    && (forall id :: id in s.paused <==> id in ctx.pausedTxIDs)
  }

  /** A new transaction is registered on the source and sent on to the target. */
  method Redirects(ctx: MigAccountCtx, id: int, clientTS: int, arrivalTS: int, ghost w: S.World)
    returns (ghost u: S.World)
    requires SourceIs(ctx, w.s) && IsTXNew(ctx.mig1Time, arrivalTS) && id !in w.s.seen
    modifies ctx
    ensures S.Enabled(w, S.Redirect(id, clientTS, arrivalTS)) && u == S.Next(w, S.Redirect(id, clientTS, arrivalTS))
    ensures SourceIs(ctx, u.s)
  {
    ctx.RegisterOrder(id, clientTS, arrivalTS);
    u := S.Next(w, S.Redirect(id, clientTS, arrivalTS));
  }

  method Detects(ctx: MigAccountCtx, ghost w: S.World) returns (found: bool, ghost a: S.Action, ghost u: S.World)
    requires SourceIs(ctx, w.s)
    modifies ctx
    ensures found ==> a.Detect? && S.Enabled(w, a) && u == S.Next(w, a)
    ensures !found ==> u == w
    ensures SourceIs(ctx, u.s)
  {
    hide Lists, Sorted;
    ghost var s;
    found, s := ctx.DetectInterleave();
    a, u := S.DeliverAck, w;
    if found {
      ghost var i :| FirstAt(ctx.Registered(), s, i) && ctx.firstNewTxID == s[i + 1].id
                     && forall id :: id in ctx.pausedTxIDs <==>
                          id in old(ctx.pausedTxIDs) || id in ListedOlds(ctx.Registered(), s, i + 2);
      S.PickIsAllowed(ctx.Registered(), s, i);
      a := S.Detect(ctx.firstNewTxID, ListedOlds(ctx.Registered(), s, i + 2));
      u := S.Next(w, a);
    }
  }

  method MarksCommitted(ctx: MigAccountCtx, id: int, ghost w: S.World) returns (ghost u: S.World)
    requires SourceIs(ctx, w.s) && id in w.s.seen && !S.InPool(w.s.pool, id)
    modifies ctx
    ensures S.Enabled(w, S.Commit(id)) && u == S.Next(w, S.Commit(id)) && SourceIs(ctx, u.s)
  {
    ctx.MarkTxCommitted(id);
    u := S.Next(w, S.Commit(id));
  }

  /** The end of a block on the source: the state is sent in a step of the machine, or
      nothing happens. */
  method EndsBlock(ctx: MigAccountCtx, selfShard: int, inPool: set<int>, stateFound: bool, ghost w: S.World)
    returns (sent: bool, ghost u: S.World)
    requires SourceIs(ctx, w.s) && forall id :: id in inPool <==> S.InPool(w.s.pool, id)
    modifies ctx
    ensures sent ==> S.Enabled(w, S.EndSourceBlock) && u == S.Next(w, S.EndSourceBlock)
    ensures !sent ==> u == w
    ensures SourceIs(ctx, u.s)
  {
    hide S.InPool;
    ghost var done := ctx.PrefixDone(inPool);
    assert done <==> S.PrefixDone(w.s);
    sent := ctx.EndBlock(selfShard, inPool, stateFound);
    u := if sent then S.Next(w, S.EndSourceBlock) else w;
  }

  method TakesAck(ctx: MigAccountCtx, ghost w: S.World) returns (ghost u: S.World)
    requires SourceIs(ctx, w.s) && S.AckMsg in w.net
    modifies ctx
    ensures S.Enabled(w, S.DeliverAck) && u == S.Next(w, S.DeliverAck) && SourceIs(ctx, u.s)
  {
    ctx.ResumeAfterSyncAck();
    u := S.Next(w, S.DeliverAck);
  }

  // ---------------------------------------------------------------------------
  // Packing

  function TxOf(addr: string, tx: T.Transaction): S.Tx {
    S.Tx(tx.id, tx.sender == addr, tx.requestTime)
  }

  /** What the source packs may be packed there. */
  lemma PackedAtSource(e: P.Env, queue: seq<T.Transaction>, room: nat, tx: T.Transaction, addr: string, w: S.World,
                       k: nat)
    requires e.mvss && tx in P.Picked(queue, P.PackDests(e, queue, room), P.Pack)
    requires addr in e.ctxs && e.ctxs[addr].targetShard != e.selfShard
    requires forall id :: id in w.s.paused ==> id in e.ctxs[addr].pausedTxIDs
    requires k < |w.s.pool| && w.s.pool[k] == TxOf(addr, tx)
    ensures S.Enabled(w, S.PackAtSource(k))
  {
    hide P.PackDests, P.Picked;
    if tx.sender == addr { P.PackedIsNotHeld(e, queue, room, tx); }
  }

  /** What the target packs may be packed there, whether or not it is then executed. */
  lemma PackedAtTarget(e: P.Env, queue: seq<T.Transaction>, room: nat, tx: T.Transaction, addr: string, w: S.World,
                       executed: bool)
    requires e.mvss && tx in P.Picked(queue, P.PackDests(e, queue, room), P.Pack)
    requires addr in e.ctxs && e.ctxs[addr].targetShard == e.selfShard
    requires e.ctxs[addr].fsm == w.t.fsm && e.ctxs[addr].mig1Time == w.s.reg.mig1Time
    ensures S.Enabled(w, S.PackAtTarget(TxOf(addr, tx), executed))
  {
    hide P.PackDests, P.Picked;
    if tx.sender == addr { P.PackedIsNotHeld(e, queue, room, tx); }
  }

  // ---------------------------------------------------------------------------
  // The target

  ghost predicate TargetIs(t: D.Target, s: S.Target) {
    !t.aborted && t.ctx.Some? && s == S.Target(t.ctx.value.fsm, t.ctx.value.pendingSyncAck)
  }

  /** A delta that does not abort the migration is the state received, applied or not. */
  lemma DeltaArrives(w: S.World, t: D.Target, d: D.Delta) returns (applied: bool)
    requires TargetIs(t, w.t) && S.StateIni in w.net && !d.ack && !D.Delivered(t, d).aborted
    ensures S.Enabled(w, S.DeliverStateIni(applied))
    ensures TargetIs(D.Delivered(t, d), S.Next(w, S.DeliverStateIni(applied)).t)
  {
    applied := D.Delivered(t, d).ctx.value.fsm == SyncApplied;
  }

  /** And so is a full state. */
  lemma StateArrives(w: S.World, t: D.Target, st: D.Account)
    requires TargetIs(t, w.t) && S.StateIni in w.net
    ensures S.Enabled(w, S.DeliverStateIni(true))
    ensures TargetIs(D.SyncInbound(t, st), S.Next(w, S.DeliverStateIni(true)).t)
  {
  }

  /** The transactions of a block as the state machine sees them: what the account sends,
      with the times that make it new or old, and what it receives. */
  ghost predicate SameTxs(txs: seq<D.Tx>, seen: seq<S.Tx>, mig1Time: int) {
    |txs| == |seen| && forall i :: 0 <= i < |txs| ==>
      (seen[i].sends <==> txs[i].Spend?) && (txs[i].Spend? ==> txs[i].isNew == IsTXNew(mig1Time, seen[i].requestTime))
  }

  /** A target that waits for the state packs no new transaction of the account. */
  ghost predicate MayPackAll(w: S.World, seen: seq<S.Tx>) {
    forall tx, executed :: tx in seen ==> S.Enabled(w, S.PackAtTarget(tx, executed))
  }

  lemma TxRuns(w: S.World, t: D.Target, tx: D.Tx, seen: S.Tx) returns (executed: bool)
    requires TargetIs(t, w.t) && t.account.Some? && SameTxs([tx], [seen], w.s.reg.mig1Time)
    requires MayPackAll(w, [seen])
    ensures S.Enabled(w, S.PackAtTarget(seen, executed))
    ensures
      var u := S.Next(w, S.PackAtTarget(seen, executed));
      && TargetIs(D.Executed(t, tx), u.t) && u.t.fsm == w.t.fsm && u.s == w.s && u.net == w.net
  {
    executed := tx.Credit? || tx.nonce == t.account.value.nonce;
    assert seen in [seen] && [tx][0] == tx && [seen][0] == seen;
  }

  /** A block of the target is a run of the machine. */
  lemma {:induction false} TxsRun(w: S.World, t: D.Target, txs: seq<D.Tx>, seen: seq<S.Tx>)
    returns (actions: seq<S.Action>, u: S.World)
    requires TargetIs(t, w.t) && t.account.Some? && SameTxs(txs, seen, w.s.reg.mig1Time) && MayPackAll(w, seen)
    ensures S.Reaches(w, actions, u) && TargetIs(D.AllExecuted(t, txs), u.t)
    ensures u.t.fsm == w.t.fsm && u.s == w.s && u.net == w.net
  {
    hide S.Reaches, S.Next, D.Executed;
    if txs == [] {
      actions, u := [], w;
      S.NoSteps(w);
    } else {
      var n := |txs| - 1;
      assert forall tx :: tx in seen[..n] ==> tx in seen;
      var before, v := TxsRun(w, t, txs[..n], seen[..n]);
      assert seen[n] in seen;
      assert MayPackAll(v, [seen[n]]) by { StillMayPack(w, v, seen, seen[n]); }
      var executed := TxRuns(v, D.AllExecuted(t, txs[..n]), txs[n], seen[n]);
      var a := S.PackAtTarget(seen[n], executed);
      u := S.Next(v, a);
      S.Steps(w, v, u, before, a);
      actions := before + [a];
    }
  }

  lemma StillMayPack(w: S.World, v: S.World, seen: seq<S.Tx>, tx: S.Tx)
    requires MayPackAll(w, seen) && v.t.fsm == w.t.fsm && v.s == w.s && tx in seen
    ensures MayPackAll(v, [tx])
  {
    assert S.Enabled(w, S.PackAtTarget(tx, true));
  }

  /** And so is a block with the ack that is sent at its end, if one is due. */
  lemma BlockEnds(w: S.World, address: string, shard: string, t: D.Target, txs: seq<D.Tx>, seen: seq<S.Tx>, now: int)
    returns (actions: seq<S.Action>, u: S.World)
    requires TargetIs(t, w.t) && t.account.Some? && SameTxs(txs, seen, w.s.reg.mig1Time) && MayPackAll(w, seen)
    ensures
      var (after, ack) := D.BlockEnded(address, shard, t, None, txs, now);
      && S.Reaches(w, actions, u) && TargetIs(after, u.t) && u.s == w.s
      && (ack.Some? ==> S.AckMsg in u.net)
  {
    hide S.Reaches, D.AllExecuted;
    actions, u := TxsRun(w, t, txs, seen);
    if D.BlockEnded(address, shard, t, None, txs, now).1.Some? {
      var v := u;
      u := S.Next(v, S.EndTargetBlock);
      S.Steps(w, v, u, actions, S.EndTargetBlock);
      actions := actions + [S.EndTargetBlock];
    }
  }
}
