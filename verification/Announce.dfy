/** What a source shard does when it learns that accounts have moved, in
    pbft/handleanns.go: it releases, collects and ships their transactions. The strategies
    other than MVSS, each with its one side pool. */
module Announce {
  import opened Selections
  import opened Transactions
  import P = TxPool

  datatype Strategy = FineTuned | NotLocked | Locked | Stopped

  type Pools = map<string, seq<Transaction>>

  function PoolOf(pools: Pools, a: string): seq<Transaction> {
    if a in pools then pools[a] else []
  }

  // ---------------------------------------------------------------------------
  // Counting the transactions of all pools

  function Bares(txs: seq<Transaction>): multiset<Transaction> {
    multiset(AllBare(txs))
  }

  /** The transactions of these pools, taken in some order. */
  ghost function Content(pools: Pools, keys: set<string>): multiset<Transaction>
    requires keys <= pools.Keys
    decreases |keys|
  {
    if keys == {} then multiset{} else
    var a :| a in keys;
    Bares(pools[a]) + Content(pools, keys - {a})
  }

  ghost function All(pools: Pools): multiset<Transaction> {
    Content(pools, pools.Keys)
  }

  lemma {:induction false} AnyOrder(pools: Pools, keys: set<string>, a: string)
    requires keys <= pools.Keys && a in keys
    ensures Content(pools, keys) == Bares(pools[a]) + Content(pools, keys - {a})
    decreases |keys|
  {
    hide Bares;
    var b :| b in keys && Content(pools, keys) == Bares(pools[b]) + Content(pools, keys - {b});
    if a != b {
      AnyOrder(pools, keys - {b}, a);
      AnyOrder(pools, keys - {a}, b);
      assert keys - {a} - {b} == keys - {b} - {a};
    }
  }

  lemma {:induction false} SameContent(p: Pools, q: Pools, keys: set<string>)
    requires keys <= p.Keys && keys <= q.Keys && forall a :: a in keys ==> p[a] == q[a]
    ensures Content(p, keys) == Content(q, keys)
    decreases |keys|
  {
    hide Bares;
    if keys != {} {
      var a :| a in keys;
      AnyOrder(p, keys, a);
      AnyOrder(q, keys, a);
      SameContent(p, q, keys - {a});
    }
  }

  lemma NoTransactions()
    ensures Bares([]) == multiset{} && All(map[]) == multiset{}
  {
  }

  /** One pool replaced, and one pool removed. */
  lemma PoolReplaced(pools: Pools, a: string, txs: seq<Transaction>)
    ensures All(pools[a := txs]) + Bares(PoolOf(pools, a)) == All(pools) + Bares(txs)
    ensures All(pools - {a}) + Bares(PoolOf(pools, a)) == All(pools)
  {
    hide Bares, Content;
    var others := pools.Keys - {a};
    AnyOrder(pools[a := txs], others + {a}, a);
    assert others + {a} - {a} == others && (pools - {a}).Keys == others;
    assert pools[a := txs].Keys == others + {a};
    SameContent(pools[a := txs], pools, others);
    SameContent(pools - {a}, pools, others);
    NoTransactions();
    if a in pools {
      AnyOrder(pools, pools.Keys, a);
    } else {
      assert pools.Keys == others;
    }
  }

  lemma OneMore(txs: seq<Transaction>, tx: Transaction)
    ensures Bares(txs + [tx]) == Bares(txs) + multiset{Bare(tx)}
  {
    OneMoreBare(txs, tx);
  }

  lemma Joined(txs: seq<Transaction>, more: seq<Transaction>)
    ensures Bares(txs + more) == Bares(txs) + Bares(more)
  {
    assert AllBare(txs + more) == AllBare(txs) + AllBare(more);
  }

  // ---------------------------------------------------------------------------
  // Where transactions belong

  /** A transfer that involves only this account, from its sender's side. */
  predicate SelfTransfer(tx: Transaction, a: string) {
    tx.recipient == a && tx.sender == a && !tx.Relayed()
  }

  /** The account decides where the transaction goes next: it is the sender of one not yet
      relayed, or the recipient of one relayed. */
  predicate Follows(tx: Transaction, a: string) {
    if tx.Relayed() then tx.recipient == a else tx.sender == a
  }

  /** Pools hold transactions that follow their account, or that wait for it as their
      recipient. */
  ghost predicate WellPlaced(pools: Pools) {
    forall a, tx :: a in pools && tx in pools[a] ==> Follows(tx, a) || tx.recipient == a
  }

  ghost predicate Settled(pools: Pools, a: string) {
    forall tx :: tx in PoolOf(pools, a) ==> Follows(tx, a)
  }

  function Unlocked(tx: Transaction, now: int): Transaction {
    if tx.unlockTime > 0 then tx.(unlockTime2 := now) else tx.(unlockTime := now)
  }

  // ---------------------------------------------------------------------------
  // Where a release sends the transactions of a pool

  /** It waits in a's pool for its recipient a. */
  predicate Waits(tx: Transaction, a: string) {
    tx.recipient == a && !tx.Relayed()
  }

  function FreedBy(a: string, held: set<string>): Transaction -> bool {
    (tx: Transaction) => Waits(tx, a) && tx.sender !in held
  }

  function HandedTo(a: string, held: set<string>, b: string): Transaction -> bool {
    (tx: Transaction) => Waits(tx, a) && tx.sender in held && tx.sender == b
  }

  function KeptIn(a: string): Transaction -> bool {
    (tx: Transaction) => !Waits(tx, a)
  }

  function AllUnlocked(txs: seq<Transaction>, now: int): (r: seq<Transaction>)
    ensures |r| == |txs|
  {
    seq(|txs|, i requires 0 <= i < |txs| => Unlocked(txs[i], now))
  }

  function AllFree(txs: seq<Transaction>, now: int): (r: seq<Transaction>)
    ensures |r| == |txs|
  {
    seq(|txs|, i requires 0 <= i < |txs| => Unlocked(txs[i], now).(success := true))
  }

  function AllHanded(txs: seq<Transaction>, now: int): (r: seq<Transaction>)
    ensures |r| == |txs|
  {
    seq(|txs|, i requires 0 <= i < |txs| => Unlocked(txs[i], now).(senLock := true))
  }

  /** Of the transactions that wait for a, those of a held sender go to the sender's pool,
      marked, and the others to the queue, as a success; the rest stays in a's pool. */
  ghost predicate Sorted(list: seq<Transaction>, held: set<string>, now: int, a: string, queue: seq<Transaction>,
                         queued: seq<Transaction>, j: nat, before: Pools, after: Pools)
  {
    && queued == queue + AllFree(Filter(list, FreedBy(a, held)), now)
    && j <= |PoolOf(after, a)| && PoolOf(after, a)[..j] == AllUnlocked(Filter(list, KeptIn(a)), now)
    && forall b :: b != a ==>
         PoolOf(after, b) == PoolOf(before, b) + AllHanded(Filter(list, HandedTo(a, held, b)), now)
  }

  lemma NothingSorted(held: set<string>, now: int, a: string, queue: seq<Transaction>, before: Pools)
    ensures Sorted([], held, now, a, queue, queue, 0, before, before)
  {
    assert queue + AllFree([], now) == queue;
    forall b ensures PoolOf(before, b) == PoolOf(before, b) + AllHanded([], now) {}
  }

  lemma FilteredNext(list: seq<Transaction>, tx: Transaction, held: set<string>, a: string)
    ensures Filter(list + [tx], FreedBy(a, held)) ==
            Filter(list, FreedBy(a, held)) + if Waits(tx, a) && tx.sender !in held then [tx] else []
    ensures Filter(list + [tx], KeptIn(a)) == Filter(list, KeptIn(a)) + if Waits(tx, a) then [] else [tx]
    ensures forall b :: Filter(list + [tx], HandedTo(a, held, b)) ==
              Filter(list, HandedTo(a, held, b))
              + if Waits(tx, a) && tx.sender in held && tx.sender == b then [tx] else []
  {
    OneMoreFiltered(list, tx, FreedBy(a, held));
    OneMoreFiltered(list, tx, KeptIn(a));
    forall b
      ensures Filter(list + [tx], HandedTo(a, held, b)) ==
              Filter(list, HandedTo(a, held, b))
              + if Waits(tx, a) && tx.sender in held && tx.sender == b then [tx] else []
    {
      OneMoreFiltered(list, tx, HandedTo(a, held, b));
    }
  }

  lemma SortedFree(list: seq<Transaction>, tx: Transaction, held: set<string>, now: int, a: string,
                   queue: seq<Transaction>, queued: seq<Transaction>, j: nat, before: Pools, after: Pools)
    requires Sorted(list, held, now, a, queue, queued, j, before, after)
    requires Waits(tx, a) && tx.sender !in held
    ensures Sorted(list + [tx], held, now, a, queue, queued + [Unlocked(tx, now).(success := true)], j, before, after)
  {
    hide Filter, PoolOf, Unlocked;
    FilteredNext(list, tx, held, a);
    var freed := Filter(list, FreedBy(a, held));
    assert AllFree(freed + [tx], now) == AllFree(freed, now) + [Unlocked(tx, now).(success := true)];
  }

  lemma SortedHanded(list: seq<Transaction>, tx: Transaction, held: set<string>, now: int, a: string,
                     queue: seq<Transaction>, queued: seq<Transaction>, j: nat, before: Pools, after: Pools)
    requires Sorted(list, held, now, a, queue, queued, j, before, after)
    requires Waits(tx, a) && tx.sender in held
    ensures Sorted(list + [tx], held, now, a, queue, queued, j, before,
                   after[tx.sender := PoolOf(after, tx.sender) + [Unlocked(tx, now).(senLock := true)]])
  {
    hide Filter, Unlocked;
    FilteredNext(list, tx, held, a);
    var grown := after[tx.sender := PoolOf(after, tx.sender) + [Unlocked(tx, now).(senLock := true)]];
    assert PoolOf(grown, a)[..j] == PoolOf(after, a)[..j];
    hide HandedTo;
    forall b | b != a
      ensures PoolOf(grown, b) ==
              PoolOf(before, b) + AllHanded(Filter(list + [tx], HandedTo(a, held, b)), now)
    {
      HandedPool(Filter(list, HandedTo(a, held, b)), tx, now, PoolOf(before, b), PoolOf(after, b), b);
    }
  }

  lemma HandedPool(handed: seq<Transaction>, tx: Transaction, now: int, before: seq<Transaction>,
                   after: seq<Transaction>, b: string)
    requires after == before + AllHanded(handed, now)
    ensures
      if b == tx.sender
      then after + [Unlocked(tx, now).(senLock := true)] == before + AllHanded(handed + [tx], now)
      else after == before + AllHanded(handed + [], now)
  {
    hide Unlocked;
    assert handed + [] == handed;
    assert AllHanded(handed + [tx], now) == AllHanded(handed, now) + [Unlocked(tx, now).(senLock := true)];
  }

  lemma SortedKept(list: seq<Transaction>, tx: Transaction, held: set<string>, now: int, a: string,
                   queue: seq<Transaction>, queued: seq<Transaction>, j: nat, before: Pools, after: Pools)
    requires Sorted(list, held, now, a, queue, queued, j, before, after) && j < |PoolOf(after, a)| && !Waits(tx, a)
    ensures Sorted(list + [tx], held, now, a, queue, queued, j + 1, before,
                   after[a := PoolOf(after, a)[j := Unlocked(tx, now)]])
  {
    hide Filter, Unlocked;
    FilteredNext(list, tx, held, a);
    var kept := Filter(list, KeptIn(a));
    assert AllUnlocked(kept + [tx], now) == AllUnlocked(kept, now) + [Unlocked(tx, now)];
    assert PoolOf(after, a)[j := Unlocked(tx, now)][..j + 1] == PoolOf(after, a)[..j] + [Unlocked(tx, now)];
  }

  lemma SortedCut(list: seq<Transaction>, held: set<string>, now: int, a: string, queue: seq<Transaction>,
                  queued: seq<Transaction>, j: nat, before: Pools, after: Pools)
    requires Sorted(list, held, now, a, queue, queued, j, before, after)
    ensures
      var cut := after[a := PoolOf(after, a)[..j]];
      && queued == queue + AllFree(Filter(list, FreedBy(a, held)), now)
      && PoolOf(cut, a) == AllUnlocked(Filter(list, KeptIn(a)), now)
      && forall b :: b != a ==>
           PoolOf(cut, b) == PoolOf(before, b) + AllHanded(Filter(list, HandedTo(a, held, b)), now)
  {
    hide Filter;
  }

  // ---------------------------------------------------------------------------
  // Releasing the transactions that wait for an account

  /** The self-transfers of a pool: while the pool is being closed up, they are appended to
      the very list that is cut off behind its kept part. */
  function SelfOnes(txs: seq<Transaction>, a: string): seq<Transaction> {
    if txs == [] then [] else
    var front, tx := SelfOnes(txs[..|txs| - 1], a), txs[|txs| - 1];
    if SelfTransfer(tx, a) then front + [tx] else front
  }

  lemma OneMoreSelf(txs: seq<Transaction>, i: nat, a: string)
    requires i < |txs|
    ensures SelfOnes(txs[..i + 1], a) == SelfOnes(txs[..i], a) + if SelfTransfer(txs[i], a) then [txs[i]] else []
    ensures Bares(txs[i..]) == Bares(txs[i + 1..]) + multiset{Bare(txs[i])}
  {
    assert txs[..i + 1][..i] == txs[..i];
    assert AllBare(txs[i..]) == [Bare(txs[i])] + AllBare(txs[i + 1..]);
  }

  /** Where pools and queue stand in the middle of a release: the first part of the list is
      dealt with, the rest still counts as listed. */
  ghost function Counted(queue: seq<Transaction>, sides: Pools, a: string, j: nat, left: seq<Transaction>,
                         lost: seq<Transaction>): multiset<Transaction>
    requires j <= |PoolOf(sides, a)|
  {
    Bares(queue) + All(sides - {a}) + Bares(PoolOf(sides, a)[..j]) + Bares(left) + Bares(lost)
  }

  lemma SenderPoolGrows(sides: Pools, a: string, b: string, tx: Transaction)
    requires a != b
    ensures
      var grown := sides[b := PoolOf(sides, b) + [tx]];
      && All(grown - {a}) == All(sides - {a}) + multiset{Bare(tx)}
      && PoolOf(grown, a) == PoolOf(sides, a)
  {
    var grown := sides[b := PoolOf(sides, b) + [tx]];
    hide Bares, All;
    PoolReplaced(sides - {a}, b, PoolOf(sides, b) + [tx]);
    assert grown - {a} == (sides - {a})[b := PoolOf(sides, b) + [tx]];
    assert PoolOf(sides - {a}, b) == PoolOf(sides, b);
    OneMore(PoolOf(sides, b), tx);
    Cancel(All(grown - {a}), All(sides - {a}) + multiset{Bare(tx)}, Bares(PoolOf(sides, b)));
  }

  lemma Cancel<T>(x: multiset<T>, y: multiset<T>, z: multiset<T>)
    requires x + z == y + z
    ensures x == y
  {
    forall t ensures x[t] == y[t] {
      assert (x + z)[t] == (y + z)[t];
    }
  }

  lemma MarksAreBare(tx: Transaction, now: int)
    ensures Unlocked(tx, now).senLock == tx.senLock
    ensures if tx.unlockTime > 0 then Unlocked(tx, now) == tx.(unlockTime2 := now)
            else Unlocked(tx, now) == tx.(unlockTime := now)
    ensures Bare(Unlocked(tx, now)) == Bare(tx) && Unlocked(tx, now).Relayed() == tx.Relayed()
    ensures Bare(Unlocked(tx, now).(senLock := true)) == Bare(tx) == Bare(Unlocked(tx, now).(success := true))
    ensures Bare(tx.(recLock := true)) == Bare(tx)
    ensures Unlocked(tx, now).sender == tx.sender && Unlocked(tx, now).recipient == tx.recipient
  {
  }

  /** The pools of all accounts but one are as settled as before, and well placed. */
  ghost predicate Undisturbed(before: Pools, after: Pools, a: string) {
    forall b :: b != a ==> OnlyFollowersAdded(PoolOf(before, b), PoolOf(after, b), b)
  }

  ghost predicate OnlyFollowersAdded(before: seq<Transaction>, after: seq<Transaction>, b: string) {
    before <= after && forall i :: |before| <= i < |after| ==> Follows(after[i], b) && !SelfTransfer(after[i], b)
  }

  lemma UndisturbedGrows(before: Pools, after: Pools, a: string, tx: Transaction)
    requires Undisturbed(before, after, a) && !tx.Relayed() && tx.recipient == a
    ensures Undisturbed(before, after[tx.sender := PoolOf(after, tx.sender) + [tx]], a)
  {
  }

  lemma UndisturbedAside(before: Pools, after: Pools, a: string, txs: seq<Transaction>)
    requires Undisturbed(before, after, a)
    ensures Undisturbed(before, before, a) && Undisturbed(before, after[a := txs], a)
    ensures PoolOf(after[a := txs], a) == txs
  {
  }

  lemma NothingDisturbed(pools: Pools, a: string)
    ensures Undisturbed(pools, pools, a)
  {
  }

  /** The transaction is one of the list, but for its marks, and waits for a no longer. */
  ghost predicate KeptFrom(tx: Transaction, list: seq<Transaction>, a: string) {
    && (tx.recipient == a ==> tx.Relayed())
    && exists i :: 0 <= i < |list| && list[i].sender == tx.sender && list[i].recipient == tx.recipient
                   && list[i].Relayed() == tx.Relayed()
  }

  lemma KeptNow(tx: Transaction, list: seq<Transaction>, i: nat, a: string)
    requires i < |list| && tx.sender == list[i].sender && tx.recipient == list[i].recipient
    requires tx.Relayed() == list[i].Relayed() && (tx.recipient == a ==> tx.Relayed())
    ensures KeptFrom(tx, list, a)
  {
  }

  lemma ReleaseStarts(queue: seq<Transaction>, sides: Pools, a: string)
    ensures Counted(queue, sides, a, 0, PoolOf(sides, a)[0..], []) == Bares(queue) + All(sides)
    ensures SelfOnes(PoolOf(sides, a)[..0], a) == []
  {
    hide Bares, All;
    PoolReplaced(sides, a, []);
    NoTransactions();
    assert PoolOf(sides, a)[0..] == PoolOf(sides, a) && PoolOf(sides, a)[..0] == [];
  }

  lemma ReleaseToSender(queue: seq<Transaction>, sides: Pools, a: string, j: nat, left: seq<Transaction>,
                        next: seq<Transaction>, lost: seq<Transaction>, was: Transaction, tx: Transaction)
    requires j <= |PoolOf(sides, a)| && Bare(tx) == Bare(was)
    requires tx.sender == was.sender && tx.recipient == was.recipient && tx.Relayed() == was.Relayed()
    requires Bares(left) == Bares(next) + multiset{Bare(was)}
    requires tx.recipient == a && !tx.Relayed()
    ensures
      var grown := sides[tx.sender := PoolOf(sides, tx.sender) + [tx]];
      && PoolOf(sides, a) <= PoolOf(grown, a)
      && Counted(queue, sides, a, j, left, lost) ==
         Counted(queue, grown, a, j, next, if SelfTransfer(was, a) then lost + [was] else lost)
  {
    hide Bares, All;
    var grown := sides[tx.sender := PoolOf(sides, tx.sender) + [tx]];
    if tx.sender == a {
      assert grown - {a} == sides - {a};
      OneMore(lost, was);
    } else {
      SenderPoolGrows(sides, a, tx.sender, tx);
    }
    assert PoolOf(grown, a)[..j] == PoolOf(sides, a)[..j];
  }

  lemma ReleaseToQueue(queue: seq<Transaction>, sides: Pools, a: string, j: nat, left: seq<Transaction>,
                       next: seq<Transaction>, lost: seq<Transaction>, was: Transaction, tx: Transaction)
    requires j <= |PoolOf(sides, a)| && Bare(tx) == Bare(was)
    requires Bares(left) == Bares(next) + multiset{Bare(was)}
    ensures Counted(queue, sides, a, j, left, lost) == Counted(queue + [tx], sides, a, j, next, lost)
  {
    hide Bares, All;
    OneMore(queue, tx);
  }

  lemma ReleaseKeeps(queue: seq<Transaction>, sides: Pools, a: string, j: nat, left: seq<Transaction>,
                     next: seq<Transaction>, lost: seq<Transaction>, was: Transaction, tx: Transaction)
    requires j < |PoolOf(sides, a)| && Bare(tx) == Bare(was)
    requires Bares(left) == Bares(next) + multiset{Bare(was)}
    ensures
      var kept := sides[a := PoolOf(sides, a)[j := tx]];
      Counted(queue, sides, a, j, left, lost) == Counted(queue, kept, a, j + 1, next, lost)
  {
    hide Bares, All;
    var kept := sides[a := PoolOf(sides, a)[j := tx]];
    assert kept - {a} == sides - {a};
    assert PoolOf(kept, a)[..j + 1] == PoolOf(sides, a)[..j] + [tx];
    OneMore(PoolOf(sides, a)[..j], tx);
  }

  lemma ReleaseEnds(queue: seq<Transaction>, sides: Pools, a: string, j: nat, lost: seq<Transaction>)
    requires j <= |PoolOf(sides, a)|
    ensures
      Counted(queue, sides, a, j, [], lost) ==
      Bares(queue) + All(sides[a := PoolOf(sides, a)[..j]]) + Bares(lost)
  {
    hide Bares, All;
    NoTransactions();
    var cut := sides[a := PoolOf(sides, a)[..j]];
    PoolReplaced(cut, a, []);
    assert cut - {a} == sides - {a};
  }

  // ---------------------------------------------------------------------------
  // The announced accounts

  /** The announced accounts of this shard, with the shard each goes to. */
  function DepartingOf(anns: seq<Ann>, own: set<string>): map<string, int> {
    if anns == [] then map[] else
    var front, ann := DepartingOf(anns[..|anns| - 1], own), anns[|anns| - 1];
    if ann.address in own && ann.address !in front then front[ann.address := ann.toShard] else front
  }

  /** The table of all accounts, with every announcement entered. */
  function Entered(table: map<string, int>, anns: seq<Ann>): map<string, int> {
    if anns == [] then table else
    Entered(table, anns[..|anns| - 1])[anns[|anns| - 1].address := anns[|anns| - 1].toShard]
  }

  lemma OneMoreAnn(anns: seq<Ann>, i: nat, own: set<string>, table: map<string, int>)
    requires i < |anns|
    ensures DepartingOf(anns[..i + 1], own) ==
            if anns[i].address in own && anns[i].address !in DepartingOf(anns[..i], own)
            then DepartingOf(anns[..i], own)[anns[i].address := anns[i].toShard] else DepartingOf(anns[..i], own)
    ensures Entered(table, anns[..i + 1]) == Entered(table, anns[..i])[anns[i].address := anns[i].toShard]
  {
    assert anns[..i + 1][..i] == anns[..i];
  }

  /** The departing accounts in the order in which they are announced first. */
  function Order(anns: seq<Ann>, own: set<string>): seq<string> {
    if anns == [] then [] else
    var front, a := Order(anns[..|anns| - 1], own), anns[|anns| - 1].address;
    if a in own && a !in front then front + [a] else front
  }

  function Members(order: seq<string>): set<string> {
    set a | a in order
  }

  lemma {:induction false} OrderIs(anns: seq<Ann>, own: set<string>)
    ensures Members(Order(anns, own)) == DepartingOf(anns, own).Keys
    ensures forall a :: a in Order(anns, own) <==> a in DepartingOf(anns, own)
    ensures forall i, j :: 0 <= i < j < |Order(anns, own)| ==> Order(anns, own)[i] != Order(anns, own)[j]
  {
    if anns != [] { OrderIs(anns[..|anns| - 1], own); }
  }

  lemma OneMoreInOrder(anns: seq<Ann>, i: nat, own: set<string>)
    requires i < |anns|
    ensures Order(anns[..i + 1], own) ==
            if anns[i].address in own && anns[i].address !in Order(anns[..i], own)
            then Order(anns[..i], own) + [anns[i].address] else Order(anns[..i], own)
  {
    assert anns[..i + 1][..i] == anns[..i];
  }

  /** What the departures free: for each account in turn what waits for it and comes from
      senders that are neither locked nor departing so far. */
  function Freed(order: seq<string>, sides: Pools, locked: set<string>, now: int): seq<Transaction> {
    if order == [] then [] else
    var n, a := |order| - 1, order[|order| - 1];
    Freed(order[..n], sides, locked, now)
    + AllFree(Filter(PoolOf(sides, a), FreedBy(a, Members(order) + locked)), now)
  }

  /** What they hand over to another account b, their sender. */
  function Handed(order: seq<string>, sides: Pools, locked: set<string>, b: string): seq<Transaction> {
    if order == [] then [] else
    var n, a := |order| - 1, order[|order| - 1];
    Handed(order[..n], sides, locked, b)
    + if a == b then [] else Filter(PoolOf(sides, a), HandedTo(a, Members(order) + locked, b))
  }

  /** What a pool keeps of its own. */
  function Kept(order: seq<string>, sides: Pools, b: string): seq<Transaction> {
    if b in order then Filter(PoolOf(sides, b), KeptIn(b)) else PoolOf(sides, b)
  }

  /** A pool after some departures: what it keeps, then what was handed over to it, marked. */
  ghost predicate Passed(order: seq<string>, before: Pools, locked: set<string>, pool: seq<Transaction>, b: string) {
    && AllBare(pool) == AllBare(Kept(order, before, b)) + AllBare(Handed(order, before, locked, b))
    && (forall i :: |Kept(order, before, b)| <= i < |pool| ==> pool[i].senLock && !Waits(pool[i], b))
    && (b !in order ==> PoolOf(before, b) <= pool)
  }

  ghost predicate AllPassed(order: seq<string>, before: Pools, locked: set<string>, now: int, queue: seq<Transaction>,
                            queued: seq<Transaction>, after: Pools)
  {
    && queued == queue + Freed(order, before, locked, now)
    && forall b :: Passed(order, before, locked, PoolOf(after, b), b)
  }

  lemma NobodyPassed(before: Pools, locked: set<string>, now: int, queue: seq<Transaction>)
    ensures AllPassed([], before, locked, now, queue, queue, before)
  {
    assert queue + Freed([], before, locked, now) == queue;
    forall b ensures Passed([], before, locked, PoolOf(before, b), b) {
      assert AllBare(PoolOf(before, b)) + AllBare([]) == AllBare(PoolOf(before, b));
    }
  }

  lemma BareJoined(txs: seq<Transaction>, more: seq<Transaction>, now: int)
    ensures AllBare(txs + more) == AllBare(txs) + AllBare(more)
    ensures AllBare(AllUnlocked(txs, now)) == AllBare(txs) == AllBare(AllHanded(txs, now))
  {
  }

  /** The pool of a departing account: only its own transactions can wait for it. */
  lemma OwnPool(order: seq<string>, before: Pools, locked: set<string>, pool: seq<Transaction>, a: string,
                held: set<string>)
    requires Passed(order, before, locked, pool, a) && a !in order
    ensures Filter(pool, FreedBy(a, held)) == Filter(PoolOf(before, a), FreedBy(a, held))
    ensures forall b :: Filter(pool, HandedTo(a, held, b)) == Filter(PoolOf(before, a), HandedTo(a, held, b))
    ensures |PoolOf(before, a)| <= |pool|
    ensures Filter(pool, KeptIn(a)) == Filter(PoolOf(before, a), KeptIn(a)) + pool[|PoolOf(before, a)|..]
  {
    hide Filter, AllBare, Handed;
    var own := PoolOf(before, a);
    var tail := pool[|own|..];
    assert pool == own + tail;
    assert forall tx :: tx in tail ==> !Waits(tx, a);
    FilterJoined(own, tail, FreedBy(a, held));
    AllOrNone(tail, FreedBy(a, held));
    FilterJoined(own, tail, KeptIn(a));
    AllOrNone(tail, KeptIn(a));
    forall b ensures Filter(pool, HandedTo(a, held, b)) == Filter(own, HandedTo(a, held, b)) {
      FilterJoined(own, tail, HandedTo(a, held, b));
      AllOrNone(tail, HandedTo(a, held, b));
    }
  }

  lemma PassedSelf(order: seq<string>, before: Pools, locked: set<string>, pool: seq<Transaction>, a: string, now: int)
    requires Passed(order, before, locked, pool, a) && a !in order && |PoolOf(before, a)| <= |pool|
    ensures Passed(order + [a], before, locked,
                   AllUnlocked(Filter(PoolOf(before, a), KeptIn(a)) + pool[|PoolOf(before, a)|..], now), a)
  {
    hide Filter, AllBare, Handed, Freed;
    var own := PoolOf(before, a);
    var tail, kept := pool[|own|..], Filter(own, KeptIn(a));
    assert (order + [a])[..|order|] == order && a in order + [a];
    HandedNext(order, before, locked, a, a);
    assert own + tail == pool;
    BareJoined(own, tail, now);
    BareSplit(own, tail, Handed(order, before, locked, a));
    assert Handed(order, before, locked, a) + [] == Handed(order, before, locked, a);
    BareJoined(kept, tail, now);
    BareJoined(kept + tail, [], now);
    forall i | |kept| <= i < |kept + tail|
      ensures AllUnlocked(kept + tail, now)[i].senLock && !Waits(AllUnlocked(kept + tail, now)[i], a)
    {
      assert (kept + tail)[i] == pool[|own| + i - |kept|];
      MarksAreBare((kept + tail)[i], now);
    }
  }

  lemma BareSplit(own: seq<Transaction>, tail: seq<Transaction>, handed: seq<Transaction>)
    requires AllBare(own) + AllBare(tail) == AllBare(own) + AllBare(handed)
    ensures AllBare(tail) == AllBare(handed)
  {
    hide Bare;
    var x, y := AllBare(own) + AllBare(tail), AllBare(own) + AllBare(handed);
    assert x[|own|..] == AllBare(tail) && y[|own|..] == AllBare(handed);
  }

  lemma HandedNext(order: seq<string>, before: Pools, locked: set<string>, a: string, b: string)
    ensures Handed(order + [a], before, locked, b) ==
            Handed(order, before, locked, b)
            + if a == b then [] else Filter(PoolOf(before, a), HandedTo(a, Members(order + [a]) + locked, b))
  {
    assert (order + [a])[..|order|] == order;
  }

  lemma PassedOther(order: seq<string>, before: Pools, locked: set<string>, pool: seq<Transaction>, a: string,
                    b: string, now: int)
    requires Passed(order, before, locked, pool, b) && a != b
    ensures Passed(order + [a], before, locked,
                   pool + AllHanded(Filter(PoolOf(before, a), HandedTo(a, Members(order + [a]) + locked, b)), now), b)
  {
    hide Filter, AllBare, Handed, Freed;
    var more := Filter(PoolOf(before, a), HandedTo(a, Members(order + [a]) + locked, b));
    HandedNext(order, before, locked, a, b);
    assert b in order + [a] <==> b in order;
    BareJoined(pool, AllHanded(more, now), now);
    BareJoined(more, [], now);
    BareJoined(Handed(order, before, locked, b), more, now);
    AllOrNone(PoolOf(before, a), HandedTo(a, Members(order + [a]) + locked, b));
    forall i | |pool| <= i < |pool + AllHanded(more, now)|
      ensures (pool + AllHanded(more, now))[i].senLock && !Waits((pool + AllHanded(more, now))[i], b)
    {
      MarksAreBare(more[i - |pool|], now);
      assert more[i - |pool|] in more;
    }
  }

  /** One more departure. */
  lemma PassedNext(order: seq<string>, before: Pools, locked: set<string>, now: int, queue: seq<Transaction>,
                   q0: seq<Transaction>, s0: Pools, q1: seq<Transaction>, s1: Pools, a: string, held: set<string>)
    requires AllPassed(order, before, locked, now, queue, q0, s0) && a !in order
    requires held == Members(order + [a]) + locked
    requires q1 == q0 + AllFree(Filter(PoolOf(s0, a), FreedBy(a, held)), now)
    requires PoolOf(s1, a) == AllUnlocked(Filter(PoolOf(s0, a), KeptIn(a)), now)
    requires forall b :: b != a ==>
               PoolOf(s1, b) == PoolOf(s0, b) + AllHanded(Filter(PoolOf(s0, a), HandedTo(a, held, b)), now)
    ensures AllPassed(order + [a], before, locked, now, queue, q1, s1)
  {
    hide Filter, Passed, PoolOf, AllUnlocked, AllFree, AllHanded, Freed, Handed, Members, FreedBy, HandedTo, KeptIn;
    assert Passed(order, before, locked, PoolOf(s0, a), a);
    OwnPool(order, before, locked, PoolOf(s0, a), a, held);
    PassedSelf(order, before, locked, PoolOf(s0, a), a, now);
    FreedNext(order, before, locked, now, a);
    forall b | b != a ensures Passed(order + [a], before, locked, PoolOf(s1, b), b) {
      assert Passed(order, before, locked, PoolOf(s0, b), b);
      PassedOther(order, before, locked, PoolOf(s0, b), a, b, now);
    }
    var more := AllFree(Filter(PoolOf(before, a), FreedBy(a, held)), now);
    assert q1 == queue + (Freed(order, before, locked, now) + more);
  }

  lemma FreedNext(order: seq<string>, before: Pools, locked: set<string>, now: int, a: string)
    ensures Freed(order + [a], before, locked, now) ==
            Freed(order, before, locked, now)
            + AllFree(Filter(PoolOf(before, a), FreedBy(a, Members(order + [a]) + locked)), now)
  {
    assert (order + [a])[..|order|] == order;
  }

  ghost predicate NoSelf(pools: Pools, a: string) {
    forall tx :: tx in PoolOf(pools, a) ==> !SelfTransfer(tx, a)
  }

  lemma {:induction false} SelfOnesNone(txs: seq<Transaction>, a: string)
    ensures SelfOnes(txs, a) == [] <==> forall tx :: tx in txs ==> !SelfTransfer(tx, a)
  {
    if txs != [] {
      SelfOnesNone(txs[..|txs| - 1], a);
      assert txs == txs[..|txs| - 1] + [txs[|txs| - 1]];
    }
  }

  /** A release settles its account and leaves the others as they were. */
  lemma ReleaseSettles(before: Pools, after: Pools, a: string)
    requires Undisturbed(before, after, a)
    requires forall k :: 0 <= k < |PoolOf(after, a)| ==> KeptFrom(PoolOf(after, a)[k], PoolOf(before, a), a)
    ensures WellPlaced(before) ==> WellPlaced(after) && Settled(after, a)
    ensures forall b :: b != a && Settled(before, b) ==> Settled(after, b)
    ensures forall b :: b != a ==> (NoSelf(before, b) <==> NoSelf(after, b))
  {
    forall b | b != a
      ensures Settled(before, b) ==> Settled(after, b)
      ensures NoSelf(before, b) <==> NoSelf(after, b)
      ensures forall tx :: tx in PoolOf(after, b) ==> tx in PoolOf(before, b) || Follows(tx, b)
    {
      assert OnlyFollowersAdded(PoolOf(before, b), PoolOf(after, b), b);
      assert forall tx :: tx in PoolOf(before, b) ==> tx in PoolOf(after, b);
    }
    if WellPlaced(before) {
      forall tx | tx in PoolOf(after, a) ensures Follows(tx, a) {
        var k :| 0 <= k < |PoolOf(after, a)| && PoolOf(after, a)[k] == tx;
        assert KeptFrom(tx, PoolOf(before, a), a);
        var i :| 0 <= i < |PoolOf(before, a)| && PoolOf(before, a)[i].sender == tx.sender
                 && PoolOf(before, a)[i].recipient == tx.recipient && PoolOf(before, a)[i].Relayed() == tx.Relayed();
        assert PoolOf(before, a)[i] in PoolOf(before, a);
      }
      forall b, tx | b in after && tx in after[b] ensures Follows(tx, b) || tx.recipient == b {
        assert tx in PoolOf(after, b);
        if b != a && tx in PoolOf(before, b) { assert b in before; }
      }
    }
  }

  /** To what was collected for each account, only transactions that go with it are added. */
  ghost predicate FollowersAdded(collected: Pools, pending: Pools) {
    && collected.Keys == pending.Keys
    && forall a :: a in pending ==> FollowerTail(collected[a], pending[a], a)
  }

  ghost predicate FollowerTail(collected: seq<Transaction>, pending: seq<Transaction>, a: string) {
    collected <= pending && forall i :: |collected| <= i < |pending| ==> Follows(pending[i], a)
  }

  class SourceShard {
    const strategy: Strategy
    var queue: seq<Transaction>
    var sides: Pools
    var late: Pools
    var own: set<string>
    var account2shard: map<string, int>
    var locked: set<string>

    constructor (strategy: Strategy, own: set<string>, account2shard: map<string, int>)
      ensures this.strategy == strategy && this.own == own && this.account2shard == account2shard
      ensures queue == [] && sides == map[] == late && locked == {}
    {
      this.strategy, this.own, this.account2shard := strategy, own, account2shard;
      queue, sides, late, locked := [], map[], map[], {};
    }

    /** Releases the transactions that wait for a as their recipient: to the queue, or to
        the pool of a sender that is locked or leaving too. The others stay, closed up in
        place. All keep their order. */
    method Release(a: string, departing: map<string, int>, now: int) returns (ghost lost: seq<Transaction>)
      requires a in departing
      modifies this`queue, this`sides
      ensures lost == SelfOnes(PoolOf(old(sides), a), a)
      ensures Bares(queue) + All(sides) + Bares(lost) == Bares(old(queue)) + All(old(sides))
      ensures old(queue) <= queue && Undisturbed(old(sides), sides, a)
      ensures forall k :: 0 <= k < |PoolOf(sides, a)| ==> KeptFrom(PoolOf(sides, a)[k], PoolOf(old(sides), a), a)
      ensures queue == old(queue) + AllFree(Filter(PoolOf(old(sides), a), FreedBy(a, departing.Keys + locked)), now)
      ensures PoolOf(sides, a) == AllUnlocked(Filter(PoolOf(old(sides), a), KeptIn(a)), now)
      ensures forall b :: b != a ==>
                PoolOf(sides, b) == PoolOf(old(sides), b)
                  + AllHanded(Filter(PoolOf(old(sides), a), HandedTo(a, departing.Keys + locked, b)), now)
    {
      hide Bares, All, Counted, SelfOnes, Undisturbed, KeptFrom, Unlocked, PoolOf, Bare, Sorted, Filter;
      ghost var held := departing.Keys + locked;
      NothingSorted(held, now, a, queue, sides);
      var list := PoolOf(sides, a);
      NothingDisturbed(sides, a);
      var j := 0;
      lost := [];
      ReleaseStarts(queue, sides, a);
      for i := 0 to |list|
        invariant j <= i <= |list| <= |PoolOf(sides, a)|
        invariant lost == SelfOnes(list[..i], a)
        invariant Counted(queue, sides, a, j, list[i..], lost) == Bares(old(queue)) + All(old(sides))
        invariant old(queue) <= queue && Undisturbed(old(sides), sides, a)
        invariant forall k :: 0 <= k < j ==> KeptFrom(PoolOf(sides, a)[k], list, a)
        invariant Sorted(list[..i], held, now, a, old(queue), queue, j, old(sides), sides)
      {
        assert list[..i + 1] == list[..i] + [list[i]];
        var tx := Unlocked(list[i], now);
        MarksAreBare(list[i], now);
        OneMoreSelf(list, i, a);
        if tx.recipient == a && !tx.Relayed() {
          if tx.sender in departing || tx.sender in locked {
            tx := tx.(senLock := true);
            ReleaseToSender(queue, sides, a, j, list[i..], list[i + 1..], lost, list[i], tx);
            UndisturbedGrows(old(sides), sides, a, tx);
            SortedHanded(list[..i], list[i], held, now, a, old(queue), queue, j, old(sides), sides);
            sides := sides[tx.sender := PoolOf(sides, tx.sender) + [tx]];
            if SelfTransfer(list[i], a) { lost := lost + [list[i]]; }
            continue;
          }
          tx := tx.(success := true);
          ReleaseToQueue(queue, sides, a, j, list[i..], list[i + 1..], lost, list[i], tx);
          SortedFree(list[..i], list[i], held, now, a, old(queue), queue, j, old(sides), sides);
          queue := queue + [tx];
          continue;
        }
        ReleaseKeeps(queue, sides, a, j, list[i..], list[i + 1..], lost, list[i], tx);
        KeptNow(tx, list, i, a);
        SortedKept(list[..i], list[i], held, now, a, old(queue), queue, j, old(sides), sides);
        UndisturbedAside(old(sides), sides, a, PoolOf(sides, a)[j := tx]);
        sides := sides[a := PoolOf(sides, a)[j := tx]];
        j := j + 1;
      }
      ReleaseEnds(queue, sides, a, j, lost);
      assert list[..|list|] == list && list[|list|..] == [];
      UndisturbedAside(old(sides), sides, a, PoolOf(sides, a)[..j]);
      SortedCut(list, held, now, a, old(queue), queue, j, old(sides), sides);
      sides := sides[a := PoolOf(sides, a)[..j]];
    }

    predicate UsesLocks() {
      strategy == NotLocked || strategy == Locked
    }

    /** An announced account is locked no more, and what waits for it is released. The ghost
        parameters describe the departures before. */
    method Unlock(a: string, departing: map<string, int>, now: int, ghost order: seq<string>, ghost before: Pools,
                  ghost held: set<string>, ghost was: seq<Transaction>) returns (ghost lost: seq<Transaction>)
      requires a in departing && a !in order && departing.Keys == Members(order + [a])
      requires locked == if strategy == Stopped then held else held - Members(order)
      requires UsesLocks() ==> AllPassed(order, before, held, now, was, queue, sides)
      modifies this`queue, this`sides, this`locked
      ensures locked == if strategy == Stopped then held else held - Members(order + [a])
      ensures UsesLocks() ==> AllPassed(order + [a], before, held, now, was, queue, sides)
      ensures Bares(queue) + All(sides) + Bares(lost) == Bares(old(queue)) + All(old(sides))
      ensures old(queue) <= queue
      ensures UsesLocks() && WellPlaced(old(sides)) ==> WellPlaced(sides) && Settled(sides, a)
      ensures UsesLocks() ==> forall b :: b != a && Settled(old(sides), b) ==> Settled(sides, b)
      ensures forall b :: b != a ==> (NoSelf(old(sides), b) <==> NoSelf(sides, b))
      ensures UsesLocks() ==> (lost == [] <==> NoSelf(old(sides), a))
      ensures !UsesLocks() ==> sides == old(sides) && queue == old(queue) && lost == []
    {
      hide Bares, All, PoolOf, WellPlaced, Settled, NoSelf, KeptFrom, Undisturbed, SelfOnes, AllPassed, Filter;
      lost := [];
      NoTransactions();
      MembersNext(order, a);
      if strategy != Stopped {
        locked := locked - {a};
      }
      if UsesLocks() {
        ghost var s0, q0 := sides, queue;
        lost := Release(a, departing, now);
        assert departing.Keys + locked == Members(order + [a]) + held;
        PassedNext(order, before, held, now, was, q0, s0, queue, sides, a, departing.Keys + locked);
        ReleaseSettles(s0, sides, a);
        LostNow(s0, a, lost, []);
      }
    }

    /** The first loop: accounts of this shard leave it, and what waits for them is
        released. Transfers of such an account to itself are what this loses. */
    method Depart(anns: seq<Ann>, now: int) returns (departing: map<string, int>, ghost lost: seq<Transaction>)
      modifies this`queue, this`sides, this`own, this`account2shard, this`locked
      ensures departing == DepartingOf(anns, old(own)) && own == old(own) - departing.Keys
      ensures account2shard == Entered(old(account2shard), anns)
      ensures Bares(queue) + All(sides) + Bares(lost) == Bares(old(queue)) + All(old(sides))
      ensures old(queue) <= queue
      ensures UsesLocks() && WellPlaced(old(sides)) ==> forall a :: a in departing ==> Settled(sides, a)
      ensures UsesLocks() ==> (lost == [] <==> forall a :: a in departing ==> NoSelf(old(sides), a))
      ensures !UsesLocks() ==> sides == old(sides) && queue == old(queue) && lost == []
      ensures locked == if strategy == Stopped then old(locked) else old(locked) - departing.Keys
      ensures UsesLocks() ==>
                AllPassed(Order(anns, old(own)), old(sides), old(locked), now, old(queue), queue, sides)
    {
      hide Bares, All, PoolOf, WellPlaced, Settled, NoSelf, KeptFrom, Undisturbed, DepartingOf, Entered, SelfOnes,
           AllPassed, Order, Filter;
      departing, lost := map[], [];
      NobodyPassed(sides, locked, now, queue);
      NobodyInOrder(own);
      NobodyDeparts(old(own), account2shard);
      NoTransactions();
      for i := 0 to |anns|
        invariant departing == DepartingOf(anns[..i], old(own)) && own == old(own) - departing.Keys
        invariant account2shard == Entered(old(account2shard), anns[..i])
        invariant Bares(queue) + All(sides) + Bares(lost) == Bares(old(queue)) + All(old(sides))
        invariant old(queue) <= queue
        invariant UsesLocks() && WellPlaced(old(sides)) ==>
                    WellPlaced(sides) && forall a :: a in departing ==> Settled(sides, a)
        invariant forall b :: b !in departing ==> (NoSelf(old(sides), b) <==> NoSelf(sides, b))
        invariant UsesLocks() ==> (lost == [] <==> forall a :: a in departing ==> NoSelf(old(sides), a))
        invariant !UsesLocks() ==> sides == old(sides) && queue == old(queue) && lost == []
        invariant locked == if strategy == Stopped then old(locked) else old(locked) - departing.Keys
        invariant UsesLocks() ==>
                    AllPassed(Order(anns[..i], old(own)), old(sides), old(locked), now, old(queue), queue, sides)
      {
        var ann := anns[i];
        OneMoreAnn(anns, i, old(own), old(account2shard));
        OneMoreInOrder(anns, i, old(own));
        OrderIs(anns[..i], old(own));
        OrderIs(anns[..i + 1], old(own));
        if ann.address !in own {
          account2shard := account2shard[ann.address := ann.toShard];
          continue;
        }
        departing := departing[ann.address := ann.toShard];
        account2shard := account2shard[ann.address := ann.toShard];
        own := own - {ann.address};
        ghost var more := Unlock(ann.address, departing, now, Order(anns[..i], old(own)), old(sides), old(locked),
                                 old(queue));
        Joined(lost, more);
        lost := lost + more;
      }
      assert anns[..|anns|] == anns;
    }

    /** The second loop: the side pools of the departing accounts are emptied for
        shipping, in any order of the accounts. */
    method CollectSides(departing: map<string, int>) returns (pending: Pools)
      modifies this`sides
      ensures pending.Keys == departing.Keys
      ensures All(sides) + All(pending) == All(old(sides))
      ensures forall a :: a in departing ==>
                pending[a] == if strategy == Stopped then [] else PoolOf(old(sides), a)
      ensures strategy != Stopped ==> sides == old(sides) - departing.Keys
      ensures strategy == Stopped ==> sides == old(sides)
    {
      hide Bares, All;
      pending := map a | a in departing :: [];
      EmptyPools(pending);
      if strategy == Stopped {
        return;
      }
      var left := departing.Keys;
      while left != {}
        invariant left <= departing.Keys == pending.Keys
        invariant sides == old(sides) - (departing.Keys - left)
        invariant forall a :: a in departing ==> pending[a] == if a in left then [] else PoolOf(old(sides), a)
        invariant All(sides) + All(pending) == All(old(sides))
      {
        var a :| a in left;
        PoolMoves(sides, pending, a);
        assert PoolOf(sides, a) == PoolOf(old(sides), a);
        pending := pending[a := pending[a] + PoolOf(sides, a)];
        sides := sides - {a};
        left := left - {a};
      }
    }

    /** The third loop: the queue is closed up in place around what goes with a departing
        account. */
    method CollectQueue(departing: map<string, int>, collected: Pools) returns (pending: Pools)
      requires collected.Keys == departing.Keys
      modifies this`queue
      ensures pending.Keys == departing.Keys
      ensures Bares(queue) + All(pending) == Bares(old(queue)) + All(collected)
      ensures queue == Filter(old(queue), StaysWithout(departing.Keys)) == Remaining(old(queue), departing)
      ensures Shipping(collected, pending, old(queue)) && FollowersAdded(collected, pending)
    {
      hide Bares, All, Remaining, Bare, FollowersAdded, Filter, Follows, Shipping, OnHand;
      pending := collected;
      NothingShipping(collected);
      ghost var before := queue;
      var n, j := |queue|, 0;
      RemainingStarts(before, departing);
      OnHandFirst(before, collected);
      for i := 0 to n
        invariant |queue| == n == |before| && j <= i && queue[i..] == before[i..]
        invariant pending.Keys == departing.Keys
        invariant queue[..j] == Remaining(before[..i], departing)
        invariant OnHand(queue[..j], before[i..], pending, Bares(before) + All(collected))
        invariant Shipping(collected, pending, before[..i])
      {
        var tx := queue[i];
        assert tx == queue[i..][0] == before[i];
        OneMoreRemaining(before, i, departing);
        assert before[..i + 1] == before[..i] + [tx];
        ShippingNext(collected, pending, before[..i], tx);
        StillOnHand(queue[..j], before, i, pending, Bares(before) + All(collected));
        if tx.sender in departing && !tx.Relayed() {
          pending := pending[tx.sender := pending[tx.sender] + [tx]];
          continue;
        }
        if tx.recipient in departing && tx.Relayed() {
          pending := pending[tx.recipient := pending[tx.recipient] + [tx.(recLock := true)]];
          continue;
        }
        queue := queue[j := tx];
        assert queue[..j + 1] == queue[..j] + [tx];
        j := j + 1;
      }
      assert before[..n] == before && before[n..] == [];
      queue := queue[..j];
      AllOnHand(queue, pending, Bares(before) + All(collected));
      RemainingIs(before, departing);
      ShippingFollows(collected, pending, before);
    }

    /** The last loop: what came for the departing accounts after the announcement. */
    method CollectLate(departing: map<string, int>, collected: Pools) returns (pending: Pools)
      requires collected.Keys == departing.Keys
      modifies this`late
      ensures pending.Keys == departing.Keys
      ensures All(late) + All(pending) == All(old(late)) + All(collected)
      ensures forall a :: a in departing ==> pending[a] == collected[a] + PoolOf(old(late), a)
      ensures late == old(late) - departing.Keys
    {
      hide Bares, All;
      pending := collected;
      var left := departing.Keys;
      while left != {}
        invariant left <= departing.Keys == pending.Keys
        invariant late == old(late) - (departing.Keys - left)
        invariant forall a :: a in departing ==>
                    pending[a] == if a in left then collected[a] else collected[a] + PoolOf(old(late), a)
        invariant All(late) + All(pending) == All(old(late)) + All(collected)
      {
        var a :| a in left;
        PoolMoves(late, pending, a);
        assert PoolOf(late, a) == PoolOf(old(late), a);
        pending := pending[a := pending[a] + PoolOf(late, a)];
        late := late - {a};
        left := left - {a};
      }
    }

    /** All that goes with the departing accounts: their side pools, what follows them in the
        queue, and what came late. */
    method Ship(departing: map<string, int>) returns (pending: Pools)
      modifies this`queue, this`sides, this`late
      ensures pending.Keys == departing.Keys
      ensures Bares(queue) + All(sides) + All(late) + All(pending) ==
              Bares(old(queue)) + All(old(sides)) + All(old(late))
      ensures queue == Filter(old(queue), StaysWithout(departing.Keys)) == Remaining(old(queue), departing)
      ensures sides == if strategy == Stopped then old(sides) else old(sides) - departing.Keys
      ensures late == old(late) - departing.Keys
      ensures forall a :: a in departing ==>
                pending[a] == (if strategy == Stopped then [] else PoolOf(old(sides), a))
                              + Boarded(Filter(old(queue), FollowerOf(a))) + PoolOf(old(late), a)
      ensures forall a :: a in departing ==>
                (Settled(pending, a) <==> Settled(old(late), a) && (strategy == Stopped || Settled(old(sides), a)))
    {
      hide Bares, All, PoolOf, Settled, Remaining, FollowerTail, Follows, Filter, Boarded, StaysWithout, FollowerOf;
      var fromSides := CollectSides(departing);
      var fromQueue := CollectQueue(departing, fromSides);
      pending := CollectLate(departing, fromQueue);
      Balance(Bares(old(queue)), All(old(sides)), All(old(late)), Bares(old(queue)), All(old(sides)), multiset{},
              All(sides), All(fromSides), Bares(queue), All(fromQueue), All(late), All(pending));
      forall a | a in departing
        ensures Settled(pending, a) <==> Settled(old(late), a) && (strategy == Stopped || Settled(old(sides), a))
      {
        Shipped(fromSides[a], fromQueue[a], old(late), a, pending, old(sides), strategy == Stopped);
      }
    }

    /** The announcement of some accounts. Queue, side pools and shipped transactions hold
        what queue and side pools held, but for the self-transfers lost; every shipped
        transaction goes with its departing sender, or recipient if it is a relay; and none
        that should have gone stays in the queue. */
    method HandleAnns(anns: seq<Ann>, now: int)
      returns (departing: map<string, int>, pending: Pools, ghost lost: seq<Transaction>,
               ghost released: seq<Transaction>, ghost settled: Pools)
      modifies this
      ensures departing == DepartingOf(anns, old(own)) && pending.Keys == departing.Keys
      ensures own == old(own) - departing.Keys && account2shard == Entered(old(account2shard), anns)
      ensures Bares(queue) + All(sides) + All(late) + All(pending) + Bares(lost) ==
              Bares(old(queue)) + All(old(sides)) + All(old(late))
      ensures UsesLocks() ==> (lost == [] <==> forall a :: a in departing ==> NoSelf(old(sides), a))
      ensures !UsesLocks() ==> lost == []
      ensures queue == Filter(old(queue) + released, StaysWithout(departing.Keys))
      ensures queue == Remaining(old(queue) + released, departing)
      ensures locked == if strategy == Stopped then old(locked) else old(locked) - departing.Keys
      ensures if UsesLocks()
              then AllPassed(Order(anns, old(own)), old(sides), old(locked), now, old(queue), old(queue) + released,
                             settled)
              else settled == old(sides) && released == []
      ensures sides == if strategy == Stopped then settled else settled - departing.Keys
      ensures late == old(late) - departing.Keys
      ensures forall a :: a in departing ==>
                pending[a] == (if strategy == Stopped then [] else PoolOf(settled, a))
                              + Boarded(Filter(old(queue) + released, FollowerOf(a))) + PoolOf(old(late), a)
      ensures (UsesLocks() ==> WellPlaced(old(sides))) ==>
                forall a :: a in departing ==>
                  (Settled(pending, a) <==>
                   Settled(old(late), a) && (strategy == FineTuned ==> Settled(old(sides), a)))
    {
      hide Bares, All, PoolOf, WellPlaced, Settled, NoSelf, Remaining, DepartingOf, Entered, AllPassed, Order, Filter,
           Boarded, StaysWithout, FollowerOf;
      departing, lost := Depart(anns, now);
      released := queue[|old(queue)|..];
      assert queue == old(queue) + released;
      settled := sides;
      ghost var q1, s1 := Bares(queue), All(sides);
      pending := Ship(departing);
      Outstanding(q1 + s1, Bares(lost), Bares(old(queue)) + All(old(sides)), All(old(late)),
                  Bares(queue) + All(sides) + All(late) + All(pending));
    }
  }

  lemma Outstanding<T>(kept: multiset<T>, lost: multiset<T>, was: multiset<T>, late: multiset<T>, now: multiset<T>)
    requires kept + lost == was && now == kept + late
    ensures now + lost == was + late
  {
    forall t ensures (now + lost)[t] == (was + late)[t] {
      assert (kept + lost)[t] == was[t] && now[t] == (kept + late)[t];
    }
  }

  lemma MembersNext(order: seq<string>, a: string)
    ensures Members(order + [a]) == Members(order) + {a}
  {
  }

  lemma NobodyInOrder(own: set<string>)
    ensures Order([], own) == []
  {
  }

  lemma NobodyDeparts(own: set<string>, table: map<string, int>)
    ensures DepartingOf([], own) == map[] && Entered(table, []) == table
  {
  }

  lemma LostNow(pools: Pools, a: string, more: seq<Transaction>, lost: seq<Transaction>)
    requires more == SelfOnes(PoolOf(pools, a), a)
    ensures more == [] <==> NoSelf(pools, a)
    ensures Bares(lost + more) == Bares(lost) + Bares(more)
  {
    SelfOnesNone(PoolOf(pools, a), a);
    Joined(lost, more);
  }

  lemma {:induction false} EmptyPools(pools: Pools)
    requires forall a :: a in pools ==> pools[a] == []
    ensures All(pools) == multiset{}
    decreases |pools|
  {
    hide Bares;
    if pools == map[] {
      NoTransactions();
    } else {
      var a :| a in pools;
      PoolReplaced(pools, a, []);
      NoTransactions();
      EmptyPools(pools - {a});
    }
  }

  lemma PoolMoves(from: Pools, to: Pools, a: string)
    requires a in to
    ensures All(from - {a}) + All(to[a := to[a] + PoolOf(from, a)]) == All(from) + All(to)
  {
    hide Bares, All;
    PoolReplaced(from, a, []);
    PoolReplaced(to, a, to[a] + PoolOf(from, a));
    Joined(to[a], PoolOf(from, a));
    MovedOver(All(from), All(from - {a}), All(to), All(to[a := to[a] + PoolOf(from, a)]), Bares(to[a]),
              Bares(PoolOf(from, a)));
  }

  lemma MovedOver<T>(f0: multiset<T>, f1: multiset<T>, t0: multiset<T>, t1: multiset<T>, x: multiset<T>, y: multiset<T>)
    requires f1 + y == f0 && t1 + x == t0 + (x + y)
    ensures f1 + t1 == f0 + t0
  {
    forall t ensures (f1 + t1)[t] == (f0 + t0)[t] {
      assert (f1 + y)[t] == f0[t] && (t1 + x)[t] == (t0 + (x + y))[t];
    }
  }

  lemma Balance<T>(q0: multiset<T>, s0: multiset<T>, l0: multiset<T>, q1: multiset<T>, s1: multiset<T>,
                   lost: multiset<T>, s2: multiset<T>, p2: multiset<T>, q3: multiset<T>, p3: multiset<T>,
                   l4: multiset<T>, p4: multiset<T>)
    requires q1 + s1 + lost == q0 + s0 && s2 + p2 == s1 && q3 + p3 == q1 + p2 && l4 + p4 == l0 + p3
    ensures q3 + s2 + l4 + p4 + lost == q0 + s0 + l0
  {
    forall t ensures (q3 + s2 + l4 + p4 + lost)[t] == (q0 + s0 + l0)[t] {
      assert (q1 + s1 + lost)[t] == (q0 + s0)[t] && (s2 + p2)[t] == s1[t];
      assert (q3 + p3)[t] == (q1 + p2)[t] && (l4 + p4)[t] == (l0 + p3)[t];
    }
  }

  /** The transactions that go with none of the departing accounts. */
  function Remaining(txs: seq<Transaction>, departing: map<string, int>): seq<Transaction> {
    if txs == [] then [] else
    var front, tx := Remaining(txs[..|txs| - 1], departing), txs[|txs| - 1];
    if (if tx.Relayed() then tx.recipient else tx.sender) in departing then front else front + [tx]
  }

  /** Transactions that follow none of the accounts that are gone. */
  function StaysWithout(gone: set<string>): Transaction -> bool {
    (tx: Transaction) => (if tx.Relayed() then tx.recipient else tx.sender) !in gone
  }

  function FollowerOf(a: string): Transaction -> bool {
    (tx: Transaction) => Follows(tx, a)
  }

  /** The part of the queue kept so far, the rest of it and what is shipped make up a total. */
  ghost predicate OnHand(kept: seq<Transaction>, rest: seq<Transaction>, pending: Pools, total: multiset<Transaction>) {
    Bares(kept) + Bares(rest) + All(pending) == total
  }

  lemma OnHandFirst(queue: seq<Transaction>, pending: Pools)
    ensures OnHand([], queue, pending, Bares(queue) + All(pending))
    ensures queue[0..] == queue && queue[..0] == []
  {
    hide All;
    NoTransactions();
  }

  lemma AllOnHand(kept: seq<Transaction>, pending: Pools, total: multiset<Transaction>)
    requires OnHand(kept, [], pending, total)
    ensures Bares(kept) + All(pending) == total
  {
    hide All;
    NoTransactions();
  }

  /** The next transaction of the queue is shipped, as it is or marked, or kept. */
  lemma StillOnHand(kept: seq<Transaction>, queue: seq<Transaction>, i: nat, pending: Pools,
                    total: multiset<Transaction>)
    requires i < |queue| && OnHand(kept, queue[i..], pending, total)
    ensures OnHand(kept + [queue[i]], queue[i + 1..], pending, total)
    ensures forall a :: a in pending ==> OnHand(kept, queue[i + 1..], pending[a := pending[a] + [queue[i]]], total)
    ensures forall a :: a in pending ==>
              OnHand(kept, queue[i + 1..], pending[a := pending[a] + [queue[i].(recLock := true)]], total)
  {
    hide Bares, All, Bare;
    var tx := queue[i];
    MarksAreBare(tx, 0);
    OneMoreRemaining(queue, i, map[]);
    OneMore(kept, tx);
    forall a | a in pending
      ensures OnHand(kept, queue[i + 1..], pending[a := pending[a] + [tx]], total)
      ensures OnHand(kept, queue[i + 1..], pending[a := pending[a] + [tx.(recLock := true)]], total)
    {
      OnePending(pending, a, tx);
      OnePending(pending, a, tx.(recLock := true));
    }
  }

  /** What is shipped from the queue; relays carry a mark. */
  function Boarded(txs: seq<Transaction>): seq<Transaction> {
    seq(|txs|, i requires 0 <= i < |txs| => if txs[i].Relayed() then txs[i].(recLock := true) else txs[i])
  }

  lemma {:induction false} RemainingIs(txs: seq<Transaction>, departing: map<string, int>)
    ensures Remaining(txs, departing) == Filter(txs, StaysWithout(departing.Keys))
  {
    if txs != [] { RemainingIs(txs[..|txs| - 1], departing); }
  }

  /** To what was collected for each account its followers in the list are added. */
  ghost predicate Shipping(collected: Pools, pending: Pools, txs: seq<Transaction>) {
    && collected.Keys == pending.Keys
    && forall a :: a in pending ==> pending[a] == collected[a] + Boarded(Filter(txs, FollowerOf(a)))
  }

  lemma NothingShipping(collected: Pools)
    ensures Shipping(collected, collected, [])
  {
    forall a | a in collected ensures collected[a] == collected[a] + Boarded(Filter([], FollowerOf(a))) {}
  }

  lemma ShippingNext(collected: Pools, pending: Pools, txs: seq<Transaction>, tx: Transaction)
    requires Shipping(collected, pending, txs)
    ensures
      var a, marked := if tx.Relayed() then tx.recipient else tx.sender,
                       if tx.Relayed() then tx.(recLock := true) else tx;
      if a in pending then Shipping(collected, pending[a := pending[a] + [marked]], txs + [tx])
      else Shipping(collected, pending, txs + [tx])
  {
    hide Filter;
    forall b | b in pending
      ensures
        var marked := if tx.Relayed() then tx.(recLock := true) else tx;
        Boarded(Filter(txs + [tx], FollowerOf(b))) ==
        Boarded(Filter(txs, FollowerOf(b))) + if Follows(tx, b) then [marked] else []
    {
      OneMoreFiltered(txs, tx, FollowerOf(b));
    }
  }

  lemma ShippingFollows(collected: Pools, pending: Pools, txs: seq<Transaction>)
    requires Shipping(collected, pending, txs)
    ensures FollowersAdded(collected, pending)
  {
    hide Filter;
    forall a | a in pending ensures FollowerTail(collected[a], pending[a], a) {
      AllOrNone(txs, FollowerOf(a));
      var picked := Filter(txs, FollowerOf(a));
      forall i | |collected[a]| <= i < |pending[a]| ensures Follows(pending[a][i], a) {
        assert picked[i - |collected[a]|] in picked;
      }
    }
  }

  lemma RemainingStarts(txs: seq<Transaction>, departing: map<string, int>)
    ensures Remaining(txs[..0], departing) == [] == txs[..0] && txs[0..] == txs
    ensures Bares(txs[..0]) == multiset{}
  {
  }

  lemma OneMoreRemaining(txs: seq<Transaction>, i: nat, departing: map<string, int>)
    requires i < |txs|
    ensures Remaining(txs[..i + 1], departing) ==
            if (if txs[i].Relayed() then txs[i].recipient else txs[i].sender) in departing
            then Remaining(txs[..i], departing) else Remaining(txs[..i], departing) + [txs[i]]
    ensures Bares(txs[i..]) == Bares(txs[i + 1..]) + multiset{Bare(txs[i])}
  {
    assert txs[..i + 1][..i] == txs[..i];
    assert AllBare(txs[i..]) == [Bare(txs[i])] + AllBare(txs[i + 1..]);
  }

  /** What remains in the queue goes with no departing account. */
  lemma {:induction false} NoneLeftBehind(txs: seq<Transaction>, departing: map<string, int>, tx: Transaction,
                                          a: string)
    requires tx in Remaining(txs, departing) && a in departing
    ensures !Follows(tx, a)
  {
    var n := |txs| - 1;
    if tx in Remaining(txs[..n], departing) {
      NoneLeftBehind(txs[..n], departing, tx, a);
    }
  }

  lemma OnePending(pending: Pools, a: string, tx: Transaction)
    requires a in pending
    ensures All(pending[a := pending[a] + [tx]]) == All(pending) + multiset{Bare(tx)}
  {
    hide Bares, All;
    PoolReplaced(pending, a, pending[a] + [tx]);
    OneMore(pending[a], tx);
    Cancel(All(pending[a := pending[a] + [tx]]), All(pending) + multiset{Bare(tx)}, Bares(pending[a]));
  }

  lemma Shipped(fromSides: seq<Transaction>, fromQueue: seq<Transaction>, late: Pools, a: string,
                pending: Pools, settled: Pools, stopped: bool)
    requires fromSides == if stopped then [] else PoolOf(settled, a)
    requires FollowerTail(fromSides, fromQueue, a)
    requires a in pending && pending[a] == fromQueue + PoolOf(late, a)
    ensures Settled(pending, a) <==> Settled(late, a) && (stopped || Settled(settled, a))
  {
    hide Follows;
    assert forall tx :: tx in fromSides ==> tx in fromQueue;
    assert forall tx :: tx in fromQueue || tx in PoolOf(late, a) <==> tx in pending[a];
    assert forall tx :: tx in fromQueue ==> tx in fromSides || Follows(tx, a);
  }

  // ---------------------------------------------------------------------------
  // What the selections mean, transaction by transaction

  /** A release frees exactly the transfers, not yet relayed, to the account from senders
      that are not held, hands exactly those of a held sender over to it, and keeps exactly
      the rest. */
  lemma ReleaseRule(list: seq<Transaction>, a: string, held: set<string>, now: int, b: string, tx: Transaction)
    ensures tx in Filter(list, FreedBy(a, held)) <==>
            tx in list && tx.recipient == a && !tx.isRelay && !tx.relayLock && tx.sender !in held
    ensures tx in Filter(list, HandedTo(a, held, b)) <==>
            tx in list && tx.recipient == a && !tx.isRelay && !tx.relayLock && tx.sender in held && tx.sender == b
    ensures tx in Filter(list, KeptIn(a)) <==> tx in list && (tx.recipient != a || tx.isRelay || tx.relayLock)
  {
    hide Filter;
    AllOrNone(list, FreedBy(a, held));
    AllOrNone(list, HandedTo(a, held, b));
    AllOrNone(list, KeptIn(a));
  }

  /** A freed one is a success, one handed over is locked for its sender, and the time of
      the release is entered as the first or the second. */
  lemma ReleaseMarks(tx: Transaction, now: int)
    ensures AllFree([tx], now) == [Unlocked(tx, now).(success := true)]
    ensures AllHanded([tx], now) == [Unlocked(tx, now).(senLock := true)]
    ensures AllUnlocked([tx], now) == [Unlocked(tx, now)]
    ensures Unlocked(tx, now) == if tx.unlockTime > 0 then tx.(unlockTime2 := now) else tx.(unlockTime := now)
  {
  }

  /** What stays in the queue is neither a transfer from an account that is gone nor a relay
      to one; what is shipped with an account is one of these, a relay with its mark. */
  lemma QueueRule(queue: seq<Transaction>, gone: set<string>, a: string, tx: Transaction)
    ensures tx in Filter(queue, StaysWithout(gone)) <==>
            tx in queue && if tx.isRelay || tx.relayLock then tx.recipient !in gone else tx.sender !in gone
    ensures tx in Filter(queue, FollowerOf(a)) <==>
            tx in queue && if tx.isRelay || tx.relayLock then tx.recipient == a else tx.sender == a
    ensures Boarded([tx]) == [if tx.isRelay || tx.relayLock then tx.(recLock := true) else tx]
  {
    AllOrNone(queue, StaysWithout(gone));
    AllOrNone(queue, FollowerOf(a));
  }

  ghost predicate FirstFor(anns: seq<Ann>, a: string, i: nat) {
    i < |anns| && anns[i].address == a && forall j :: 0 <= j < i ==> anns[j].address != a
  }

  ghost predicate LastFor(anns: seq<Ann>, a: string, i: nat) {
    i < |anns| && anns[i].address == a && forall j :: i < j < |anns| ==> anns[j].address != a
  }

  lemma {:induction false} NeverAnnounced(anns: seq<Ann>, own: set<string>, table: map<string, int>, a: string)
    requires forall j :: 0 <= j < |anns| ==> anns[j].address != a
    ensures a !in DepartingOf(anns, own)
    ensures (a in Entered(table, anns) <==> a in table) && (a in table ==> Entered(table, anns)[a] == table[a])
  {
    if anns != [] { NeverAnnounced(anns[..|anns| - 1], own, table, a); }
  }

  /** An account of the shard departs with its first announcement. */
  lemma {:induction false} DepartsFirst(anns: seq<Ann>, own: set<string>, a: string, i: nat)
    requires FirstFor(anns, a, i)
    ensures a in DepartingOf(anns, own) <==> a in own
    ensures a in own ==> DepartingOf(anns, own)[a] == anns[i].toShard
  {
    var n := |anns| - 1;
    if i < n {
      assert anns[..n][i] == anns[i] && forall j :: 0 <= j < n ==> anns[..n][j] == anns[j];
      DepartsFirst(anns[..n], own, a, i);
    } else {
      NeverAnnounced(anns[..n], own, map[], a);
    }
  }

  /** In the table its last announcement counts. */
  lemma {:induction false} EntersLast(anns: seq<Ann>, table: map<string, int>, a: string, i: nat)
    requires LastFor(anns, a, i)
    ensures a in Entered(table, anns) && Entered(table, anns)[a] == anns[i].toShard
  {
    var n := |anns| - 1;
    if i < n {
      assert anns[n].address != a && forall j :: 0 <= j < n ==> anns[..n][j] == anns[j];
      EntersLast(anns[..n], table, a, i);
    }
  }

  // ---------------------------------------------------------------------------
  // What packing and locking put into the side pools

  /** The side pools of a kind hold these transactions. */
  ghost predicate SidesOf(pools: Pools, sides: P.Sides, kind: P.SideKind) {
    forall a :: PoolOf(pools, a) == P.SideOf(sides, kind, a)
  }

  lemma {:induction false} SetAsideIs(dests: seq<P.Dest>, kind: P.SideKind, addr: string)
    ensures forall tx :: tx in P.SetAside(dests, kind, addr) <==> P.Aside(kind, addr, tx) in dests
  {
    if dests != [] {
      var front, d := dests[..|dests| - 1], dests[|dests| - 1];
      SetAsideIs(front, kind, addr);
      assert dests == front + [d];
    }
  }

  lemma {:induction false} PackDestsAt(e: P.Env, queue: seq<Transaction>, room: nat, i: nat)
    requires i < |queue|
    ensures P.PackDests(e, queue, room)[i] in {P.Stay, P.PackDest(e, queue[i])}
  {
    hide P.PackDest;
    if i < |queue| - 1 { PackDestsAt(e, queue[..|queue| - 1], room, i); }
  }

  /** The same transfer between the same accounts. */
  predicate SameTransfer(x: Transaction, y: Transaction) {
    x.sender == y.sender && x.recipient == y.recipient && x.Relayed() == y.Relayed()
  }

  lemma LockedIsSame(e: P.Env, tx: Transaction)
    ensures SameTransfer(P.SenderLocked(e, tx), tx) && SameTransfer(P.RecipientLocked(e, tx), tx)
    ensures SameTransfer(P.SenderMarked(e, tx), tx) && SameTransfer(P.RecipientMarked(e, tx), tx)
    ensures SameTransfer(P.Stamped(e, tx), tx)
  {
  }

  /** Packing and locking set a transaction aside for its sender or its recipient; locking
      sets it aside for its sender only if it follows it. */
  lemma AsideFor(e: P.Env, tx: Transaction)
    ensures
      var d := P.PackDest(e, tx);
      d.Aside? ==> (Follows(d.tx, d.addr) || d.tx.recipient == d.addr || d.kind == P.OutingBefore)
                   && (Follows(d.tx, d.addr) <==> Follows(tx, d.addr))
    ensures
      var d := P.LockDest(e, tx);
      d.Aside? ==> (Follows(d.tx, d.addr) || (d.tx.recipient == d.addr && d.kind != P.OutingBefore))
  {
    LockedIsSame(e, tx);
    hide P.SenderLocked, P.RecipientLocked, P.Stamped, P.SenderMarked, P.RecipientMarked, P.TargetMayPackNew,
         P.HeldBySync, P.SenderServed;
  }

  /** With the two lock strategies the pools stay well placed through packing. */
  lemma PackingPlaces(e: P.Env, queue: seq<Transaction>, room: nat, sides: P.Sides, after: P.Sides, before: Pools,
                      pools: Pools, kind: P.SideKind)
    requires P.SidesAfter(sides, P.PackDests(e, queue, room), after) && kind != P.OutingBefore
    requires SidesOf(before, sides, kind) && SidesOf(pools, after, kind) && WellPlaced(before)
    ensures WellPlaced(pools)
  {
    hide P.PackDests, P.PackDest, P.SideOf, Follows;
    var dests := P.PackDests(e, queue, room);
    forall a, tx | a in pools && tx in pools[a] ensures Follows(tx, a) || tx.recipient == a {
      SetAsideIs(dests, kind, a);
      assert pools[a] == PoolOf(before, a) + P.SetAside(dests, kind, a);
      if tx !in PoolOf(before, a) {
        var i :| 0 <= i < |dests| && dests[i] == P.Aside(kind, a, tx);
        PackDestsAt(e, queue, room, i);
        AsideFor(e, queue[i]);
      } else {
        assert a in before && tx in before[a];
      }
    }
  }

  /** And through locking; under fine-tuned locking every pool then stays settled. */
  lemma LockingPlaces(e: P.Env, queue: seq<Transaction>, sides: P.Sides, after: P.Sides, before: Pools,
                      pools: Pools, kind: P.SideKind)
    requires P.SidesAfter(sides, P.LockDests(e, queue), after)
    requires SidesOf(before, sides, kind) && SidesOf(pools, after, kind)
    ensures kind != P.OutingBefore && WellPlaced(before) ==> WellPlaced(pools)
    ensures kind == P.OutingBefore ==> forall a :: Settled(pools, a) <==> Settled(before, a)
  {
    hide P.LockDest, P.SideOf, Follows;
    var dests := P.LockDests(e, queue);
    forall a
      ensures PoolOf(pools, a) == PoolOf(before, a) + P.SetAside(dests, kind, a)
      ensures forall tx :: tx in P.SetAside(dests, kind, a) ==>
                Follows(tx, a) || (tx.recipient == a && kind != P.OutingBefore)
    {
      SetAsideIs(dests, kind, a);
      forall tx | tx in P.SetAside(dests, kind, a)
        ensures Follows(tx, a) || (tx.recipient == a && kind != P.OutingBefore)
      {
        var i :| 0 <= i < |dests| && dests[i] == P.Aside(kind, a, tx);
        AsideFor(e, queue[i]);
      }
    }
    if kind == P.OutingBefore {
      forall a ensures Settled(pools, a) <==> Settled(before, a) {
        SettledBoth(PoolOf(before, a), P.SetAside(dests, kind, a), a);
      }
    } else {
      forall a, tx | WellPlaced(before) && a in pools && tx in pools[a] ensures Follows(tx, a) || tx.recipient == a {
        assert pools[a] == PoolOf(pools, a);
        if tx in PoolOf(before, a) { assert a in before && tx in before[a]; }
      }
    }
  }

  lemma SettledBoth(txs: seq<Transaction>, more: seq<Transaction>, a: string)
    ensures (forall tx :: tx in txs + more ==> Follows(tx, a)) <==>
            (forall tx :: tx in txs ==> Follows(tx, a)) && (forall tx :: tx in more ==> Follows(tx, a))
  {
    hide Follows;
    assert forall tx :: tx in txs + more <==> tx in txs || tx in more;
  }

  predicate SetsAside(d: P.Dest, a: string) {
    d.Aside? && d.kind == P.OutingBefore && d.addr == a
  }

  /** Under fine-tuned locking the pool of an account stays settled through packing exactly
      when nothing is set aside in it but what follows the account. */
  lemma PackingSettles(e: P.Env, queue: seq<Transaction>, room: nat, sides: P.Sides, after: P.Sides, before: Pools,
                       pools: Pools, a: string)
    requires P.SidesAfter(sides, P.PackDests(e, queue, room), after)
    requires SidesOf(before, sides, P.OutingBefore) && SidesOf(pools, after, P.OutingBefore)
    ensures
      var dests := P.PackDests(e, queue, room);
      Settled(pools, a) <==>
      Settled(before, a) && forall i :: 0 <= i < |queue| && SetsAside(dests[i], a) ==> Follows(queue[i], a)
  {
    hide P.PackDests, P.PackDest, P.SideOf, Follows;
    var dests := P.PackDests(e, queue, room);
    var more := P.SetAside(dests, P.OutingBefore, a);
    SetAsideIs(dests, P.OutingBefore, a);
    SettledBoth(PoolOf(before, a), more, a);
    assert PoolOf(pools, a) == PoolOf(before, a) + more;
    forall i | 0 <= i < |queue| && SetsAside(dests[i], a)
      ensures dests[i].tx in more && (Follows(dests[i].tx, a) <==> Follows(queue[i], a))
    {
      PackDestsAt(e, queue, room, i);
      AsideFor(e, queue[i]);
      assert dests[i] == P.Aside(P.OutingBefore, a, dests[i].tx);
    }
    forall tx | tx in more
      ensures exists i :: 0 <= i < |queue| && SetsAside(dests[i], a) && dests[i].tx == tx
    {
      var i :| 0 <= i < |dests| && dests[i] == P.Aside(P.OutingBefore, a, tx);
    }
  }

  /** Under fine-tuned locking the packing loop sets every transaction of a leaving sender
      aside for that sender, relays included; shipping such a transaction with the sender
      is right exactly when it is no relay, or the sender is its recipient as well. */
  lemma RelayFollowsSender(e: P.Env, tx: Transaction)
    requires !e.mvss && !e.mvssPlus && !e.notLockAccWhenMigrating && !e.lockAccWhenMigrating && !e.stopWhenMigrating
    requires tx.sender in e.outingAcc && (if tx.Relayed() then tx.recipient in e.own else tx.sender in e.own)
    ensures
      var d := P.PackDest(e, tx);
      && d.Aside? && d.kind == P.OutingBefore && d.addr == tx.sender
      && (Follows(d.tx, d.addr) <==> !tx.Relayed() || tx.sender == tx.recipient)
  {
    LockedIsSame(e, tx);
    hide P.SenderLocked, P.RecipientLocked, P.Stamped, P.TargetMayPackNew;
  }
}
