/** The context of a migrating account in account/mvss_ctx.go: which of its transactions
    are old and which are new, the detection of an interleaved order, and the phases a
    source context goes through around the one synchronization it starts. */
module MigCtx {
  import opened Wrappers

  /** The phases, in the order of their numbers. */
  datatype Fsm = Active | PauseOld | SyncOut | WaitSyncIni | SyncApplied | AckSent

  function Phase(fsm: Fsm): nat {
    match fsm
    case Active => 0
    case PauseOld => 1
    case SyncOut => 2
    case WaitSyncIni => 3
    case SyncApplied => 4
    case AckSent => 5
  }

  /** A transaction that arrived after the migration began is new, any other old. */
  predicate IsTXNew(mig1Time: int, requestTime: int) {
    mig1Time > 0 && requestTime > mig1Time
  }

  /** What decides the detection: the logical times of the registered transactions, their
      arrival times, and the time the migration began. */
  datatype Register = Register(order: map<int, int>, arrival: map<int, int>, mig1Time: int) {
    function Arrival(id: int): int {
      if id in arrival then arrival[id] else 0
    }

    predicate New(id: int) {
      IsTXNew(mig1Time, Arrival(id))
    }
  }

  // ---------------------------------------------------------------------------
  // Interleaving, as a statement about logical times

  ghost predicate DistinctTimes(o: map<int, int>) {
    forall a, b :: a in o && b in o && o[a] == o[b] ==> a == b
  }

  /** No new transaction shares its logical time with an old one. */
  ghost predicate Unmixed(r: Register) {
    forall a, b :: a in r.order && b in r.order && r.order[a] == r.order[b] ==> r.New(a) == r.New(b)
  }

  /** Transaction b is the next one after a in logical time. */
  ghost predicate Next(o: map<int, int>, a: int, b: int) {
    a in o && b in o && o[a] < o[b] && forall c :: c in o ==> !(o[a] < o[c] < o[b])
  }

  /** A new transaction that shares its logical time with no other, and whose neighbours in
      logical time are old. */
  ghost predicate Interleaved(r: Register, n: int) {
    && r.New(n) && (forall m :: m in r.order && n in r.order && r.order[m] == r.order[n] ==> m == n)
    && exists a, b :: Next(r.order, a, n) && Next(r.order, n, b) && !r.New(a) && !r.New(b)
  }

  ghost predicate FirstInterleaved(r: Register, n: int) {
    && n in r.order && Interleaved(r, n)
    && forall m :: m in r.order && Interleaved(r, m) ==> r.order[n] <= r.order[m]
  }

  /** The old transactions later than n in logical time. */
  function LaterOlds(r: Register, n: int): set<int>
    requires n in r.order
  {
    set id | id in r.order && !r.New(id) && r.order[id] > r.order[n]
  }

  function EarlierOlds(r: Register, n: int): set<int>
    requires n in r.order
  {
    set id | id in r.order && !r.New(id) && r.order[id] < r.order[n]
  }

  // ---------------------------------------------------------------------------
  // Interleaving, as the scan of a sorted list finds it

  datatype Item = Item(id: int, ts: int)

  /** A list of the registered transactions, each once. */
  ghost predicate Lists(s: seq<Item>, o: map<int, int>) {
    && (forall k :: 0 <= k < |s| ==> s[k].id in o && o[s[k].id] == s[k].ts)
    && (forall k, l :: 0 <= k < l < |s| ==> s[k].id != s[l].id)
    && (forall id :: id in o ==> exists k :: 0 <= k < |s| && s[k].id == id)
  }

  ghost predicate Sorted(s: seq<Item>) {
    forall k, l :: 0 <= k < l < |s| ==> s[k].ts <= s[l].ts
  }

  /** Old, new, old in a row. */
  predicate Pattern(r: Register, s: seq<Item>, i: nat)
    requires i + 2 < |s|
  {
    !r.New(s[i].id) && r.New(s[i + 1].id) && !r.New(s[i + 2].id)
  }

  function Swapped(s: seq<Item>, i: nat, j: nat): seq<Item>
    requires i < |s| && j < |s|
  {
    s[i := s[j]][j := s[i]]
  }

  lemma SwapLists(s: seq<Item>, o: map<int, int>, i: nat, j: nat)
    requires Lists(s, o) && i < |s| && j < |s|
    ensures Lists(Swapped(s, i, j), o)
  {
    var t := Swapped(s, i, j);
    forall id | id in o ensures exists k :: 0 <= k < |t| && t[k].id == id {
      var k :| 0 <= k < |s| && s[k].id == id;
      assert t[if k == i then j else if k == j then i else k].id == id;
    }
  }

  /** With distinct times there is one sorted list, whatever order the map is read in. */
  lemma {:induction false} SortedOnce(s: seq<Item>, t: seq<Item>, o: map<int, int>, n: nat)
    requires Lists(s, o) && Lists(t, o) && Sorted(s) && Sorted(t) && DistinctTimes(o)
    requires n <= |s| && n <= |t|
    ensures s[..n] == t[..n]
  {
    if n > 0 {
      SortedOnce(s, t, o, n - 1);
      NotAbove(s, t, o, n - 1);
      NotAbove(t, s, o, n - 1);
      assert s[..n] == s[..n - 1] + [s[n - 1]] && t[..n] == t[..n - 1] + [t[n - 1]];
      assert s[n - 1].id == t[n - 1].id;
    }
  }

  lemma NotAbove(s: seq<Item>, t: seq<Item>, o: map<int, int>, n: nat)
    requires Lists(s, o) && Lists(t, o) && Sorted(t) && n < |s| && n < |t| && s[..n] == t[..n]
    ensures t[n].ts <= s[n].ts
  {
    assert forall k :: 0 <= k < n ==> s[k] == s[..n][k] == t[..n][k] == t[k];
    var k :| 0 <= k < |t| && t[k].id == s[n].id;
  }

  /** The transaction at k of a sorted list shares its time with no other. */
  ghost predicate Alone(s: seq<Item>, k: int) {
    0 <= k < |s| && forall j :: 0 <= j < |s| && s[j].ts == s[k].ts ==> j == k
  }

  lemma OldBefore(r: Register, s: seq<Item>, k: nat, a: int)
    requires Lists(s, r.order) && Sorted(s) && Unmixed(r) && Alone(s, k)
    requires Next(r.order, a, s[k].id) && !r.New(a)
    ensures k > 0 && !r.New(s[k - 1].id)
  {
    var i :| 0 <= i < |s| && s[i].id == a;
    assert i < k && s[i].ts <= s[k - 1].ts < s[k].ts;
    assert r.order[s[k - 1].id] == r.order[a];
  }

  lemma OldAfter(r: Register, s: seq<Item>, k: nat, b: int)
    requires Lists(s, r.order) && Sorted(s) && Unmixed(r) && Alone(s, k)
    requires Next(r.order, s[k].id, b) && !r.New(b)
    ensures k + 1 < |s| && !r.New(s[k + 1].id)
  {
    var j :| 0 <= j < |s| && s[j].id == b;
    assert k < j && s[k].ts < s[k + 1].ts <= s[j].ts;
    assert r.order[s[k + 1].id] == r.order[b];
  }

  lemma ListedAlone(r: Register, s: seq<Item>, n: int) returns (k: nat)
    requires Lists(s, r.order) && n in r.order
    requires forall m :: m in r.order && r.order[m] == r.order[n] ==> m == n
    ensures Alone(s, k) && s[k].id == n
  {
    k :| 0 <= k < |s| && s[k].id == n;
  }

  /** In a sorted list the neighbours of such a transaction are old. */
  lemma ListNeighbors(r: Register, s: seq<Item>, n: int) returns (k: nat)
    requires Lists(s, r.order) && Sorted(s) && Unmixed(r) && Interleaved(r, n)
    ensures 0 < k < |s| - 1 && s[k].id == n && !r.New(s[k - 1].id) && !r.New(s[k + 1].id)
  {
    hide Lists, Sorted, Unmixed, Alone;
    var a, b :| Next(r.order, a, n) && Next(r.order, n, b) && !r.New(a) && !r.New(b);
    k := ListedAlone(r, s, n);
    OldBefore(r, s, k, a);
    OldAfter(r, s, k, b);
  }

  lemma Between(r: Register, s: seq<Item>, i: nat)
    requires Lists(s, r.order) && Sorted(s) && Unmixed(r) && i + 2 < |s| && Pattern(r, s, i)
    ensures Next(r.order, s[i].id, s[i + 1].id) && Next(r.order, s[i + 1].id, s[i + 2].id)
    ensures forall m :: m in r.order && r.order[m] == s[i + 1].ts ==> m == s[i + 1].id
  {
    assert s[i].ts < s[i + 1].ts < s[i + 2].ts;
    forall c | c in r.order
      ensures r.order[c] <= s[i].ts || c == s[i + 1].id || r.order[c] >= s[i + 2].ts
    {
      var k :| 0 <= k < |s| && s[k].id == c;
    }
  }

  /** The scan finds the transactions between old neighbours. */
  lemma PatternIsInterleaved(r: Register, s: seq<Item>, i: nat)
    requires Lists(s, r.order) && Sorted(s) && Unmixed(r) && i + 2 < |s|
    ensures Pattern(r, s, i) <==> Interleaved(r, s[i + 1].id)
  {
    if Pattern(r, s, i) {
      Between(r, s, i);
    }
    if Interleaved(r, s[i + 1].id) {
      var k := ListNeighbors(r, s, s[i + 1].id);
      assert k == i + 1;
    }
  }

  lemma InterleavedIsPattern(r: Register, s: seq<Item>, n: int) returns (i: nat)
    requires Lists(s, r.order) && Sorted(s) && Unmixed(r) && Interleaved(r, n)
    ensures i + 2 < |s| && s[i + 1].id == n && Pattern(r, s, i)
  {
    var k := ListNeighbors(r, s, n);
    i := k - 1;
  }

  /** Whatever the order in which the map is read, the scan picks the same transaction and
      pauses the same ones, as long as no new one shares its logical time with an old. */
  lemma OneOutcome(r: Register, s: seq<Item>, i: nat, t: seq<Item>, j: nat)
    requires Lists(s, r.order) && Sorted(s) && Lists(t, r.order) && Sorted(t) && Unmixed(r)
    requires FirstAt(r, s, i) && FirstAt(r, t, j)
    ensures s[i + 1].id == t[j + 1].id && ListedOlds(r, s, i + 2) == ListedOlds(r, t, j + 2)
  {
    FirstPattern(r, s, i);
    FirstPattern(r, t, j);
  }

  lemma FirstPattern(r: Register, s: seq<Item>, i: nat)
    requires Lists(s, r.order) && Sorted(s) && Unmixed(r) && i + 2 < |s| && Pattern(r, s, i)
    requires forall j :: 0 <= j < i ==> !Pattern(r, s, j)
    ensures s[i + 1].id in r.order && Interleaved(r, s[i + 1].id) && FirstInterleaved(r, s[i + 1].id)
    ensures ListedOlds(r, s, i + 2) == LaterOlds(r, s[i + 1].id)
  {
    PatternIsInterleaved(r, s, i);
    forall m | m in r.order && Interleaved(r, m) ensures s[i + 1].ts <= r.order[m] {
      var j := InterleavedIsPattern(r, s, m);
    }
    LaterListed(r, s, i);
  }

  function ListedOlds(r: Register, s: seq<Item>, i: nat): set<int> {
    set k | i <= k < |s| && !r.New(s[k].id) :: s[k].id
  }

  lemma LaterListed(r: Register, s: seq<Item>, i: nat)
    requires Lists(s, r.order) && Sorted(s) && Unmixed(r) && i + 2 < |s| && r.New(s[i + 1].id)
    ensures ListedOlds(r, s, i + 2) == LaterOlds(r, s[i + 1].id)
  {
  }

  lemma NoPattern(r: Register, s: seq<Item>)
    requires Lists(s, r.order) && Sorted(s) && Unmixed(r)
    requires forall j :: 0 <= j && j + 2 < |s| ==> !Pattern(r, s, j)
    ensures forall m :: !Interleaved(r, m)
  {
    forall m ensures !Interleaved(r, m) {
      if Interleaved(r, m) {
        var j := InterleavedIsPattern(r, s, m);
      }
    }
  }

  /** With equal times the order in which the map is read can decide: here the same
      transactions sort into a list with the pattern and into one without. */
  lemma EqualTimesLeaveAChoice() returns (r: Register, s: seq<Item>, t: seq<Item>)
    ensures Lists(s, r.order) && Sorted(s) && |s| == 3 && Pattern(r, s, 0)
    ensures Lists(t, r.order) && Sorted(t) && |t| == 3 && !Pattern(r, t, 0)
  {
    r := Register(map[1 := 10, 2 := 20, 3 := 20], map[2 := 200], 100);
    s, t := [Item(1, 10), Item(2, 20), Item(3, 20)], [Item(1, 10), Item(3, 20), Item(2, 20)];
    ThreeListed(r.order, s[0], s[1], s[2]);
    ThreeListed(r.order, t[0], t[1], t[2]);
  }

  lemma ThreeListed(o: map<int, int>, x: Item, y: Item, z: Item)
    requires o == map[x.id := x.ts, y.id := y.ts, z.id := z.ts] && x.id != y.id && y.id != z.id && z.id != x.id
    ensures Lists([x, y, z], o)
  {
    var s := [x, y, z];
    assert s[0].id == x.id && s[1].id == y.id && s[2].id == z.id;
  }

  /** The first n items are sorted, and none of them above a later one. */
  ghost predicate SortedUpTo(s: seq<Item>, n: nat) {
    forall k, l :: 0 <= k < n && k < l < |s| ==> s[k].ts <= s[l].ts
  }

  /** Item i is not above the ones between it and j. */
  ghost predicate NotAboveUpTo(s: seq<Item>, i: nat, j: nat)
    requires i < |s| && j <= |s|
  {
    forall k :: i < k < j ==> s[i].ts <= s[k].ts
  }

  lemma SortStep(s: seq<Item>, o: map<int, int>, i: nat, j: nat)
    requires Lists(s, o) && SortedUpTo(s, i) && i < j < |s| && NotAboveUpTo(s, i, j)
    ensures s[i].ts <= s[j].ts ==> NotAboveUpTo(s, i, j + 1)
    ensures
      var t := s[i := s[j]][j := s[i]];
      s[i].ts > s[j].ts ==> Lists(t, o) && SortedUpTo(t, i) && NotAboveUpTo(t, i, j + 1)
  {
    hide Lists;
    SwapLists(s, o, i, j);
  }

  lemma SortBounds(s: seq<Item>, i: nat)
    ensures SortedUpTo(s, 0) && (SortedUpTo(s, |s|) ==> Sorted(s))
    ensures i < |s| ==> NotAboveUpTo(s, i, i + 1)
    ensures i < |s| && SortedUpTo(s, i) && NotAboveUpTo(s, i, |s|) ==> SortedUpTo(s, i + 1)
  {
  }

  /** The exchange sort of the items. */
  method Sort(items: array<Item>, ghost o: map<int, int>)
    requires Lists(items[..], o)
    modifies items
    ensures Lists(items[..], o) && Sorted(items[..])
  {
    hide *;
    SortBounds(items[..], 0);
    for i := 0 to items.Length
      invariant Lists(items[..], o) && SortedUpTo(items[..], i)
    {
      SortBounds(items[..], i);
      for j := i + 1 to items.Length
        invariant Lists(items[..], o) && SortedUpTo(items[..], i) && NotAboveUpTo(items[..], i, j)
      {
        ghost var s := items[..];
        SortStep(s, o, i, j);
        if items[i].ts > items[j].ts {
          items[i], items[j] := items[j], items[i];
          assert items[..] == s[i := s[j]][j := s[i]];
        }
      }
      SortBounds(items[..], i);
    }
    SortBounds(items[..], 0);
  }

  /** What the pools look at in a context. */
  datatype CtxView = CtxView(targetShard: int, mig1Time: int, fsm: Fsm, pausedTxIDs: set<int>, firstNewTxID: int,
                             orderList: map<int, int>)
  {
    predicate IsPaused(id: int) {
      id in pausedTxIDs
    }

    /** A target context does not pack new transactions before the state has come. */
    predicate ShouldBlockNewOnTarget() {
      fsm == WaitSyncIni
    }

    predicate IsSuffixOldTx(id: int, clientTS: int, arrivalTS: int) {
      && firstNewTxID > 0 && !IsTXNew(mig1Time, arrivalTS) && firstNewTxID in orderList
      && id != firstNewTxID && clientTS >= orderList[firstNewTxID]
    }

    /** What the source still packs of an account it no longer owns. */
    predicate ShouldSourcePackOutgoing(selfShard: int, id: int, clientTS: int, arrivalTS: int) {
      targetShard != selfShard && (IsPaused(id) || IsSuffixOldTx(id, clientTS, arrivalTS))
    }
  }

  class MigAccountCtx {
    const sourceShard: int
    const targetShard: int
    const mig1Time: int
    var syncNeeded: bool
    var orderList: map<int, int>
    var arrivalList: map<int, int>
    var committedTx: set<int>
    var firstNewTxID: int
    var pausedTxIDs: set<int>
    var fsm: Fsm

    constructor (source: int, target: int, mig1: int, order: map<int, int>, arrival: map<int, int>)
      ensures Registered() == Register(order, arrival, mig1) && sourceShard == source && targetShard == target
      ensures firstNewTxID == 0 && fsm == Active && pausedTxIDs == {} == committedTx
      ensures syncNeeded <==> order != map[]
    {
      sourceShard, targetShard, mig1Time := source, target, mig1;
      orderList, arrivalList, syncNeeded := order, arrival, order != map[];
      committedTx, pausedTxIDs, firstNewTxID, fsm := {}, {}, 0, Active;
    }

    function Registered(): Register
      reads this`orderList, this`arrivalList
    {
      Register(orderList, arrivalList, mig1Time)
    }

    method RegisterOrder(id: int, clientTS: int, arrivalTS: int)
      modifies this`orderList, this`arrivalList
      ensures Registered() == Register(old(orderList)[id := clientTS], old(arrivalList)[id := arrivalTS], mig1Time)
    {
      orderList := orderList[id := clientTS];
      arrivalList := arrivalList[id := arrivalTS];
    }

    /** A context that has already picked a new transaction, or gone past PauseOld, is
        not examined again. */
    predicate MayDetect()
      reads this`firstNewTxID, this`fsm
    {
      firstNewTxID <= 0 && Phase(fsm) < Phase(SyncOut)
    }

    /** Scans the transactions in logical time. With unmixed times the outcome is decided
        by the register alone: the first interleaved new transaction is picked, and the
        old ones after it are paused. */
    method DetectInterleave() returns (found: bool, ghost s: seq<Item>)
      modifies this`firstNewTxID, this`pausedTxIDs, this`syncNeeded, this`fsm
      ensures found ==> old(MayDetect()) && |orderList| >= 3 && syncNeeded && fsm == PauseOld
                        && firstNewTxID in orderList
      ensures !found ==> unchanged(this)
      ensures old(MayDetect()) && |orderList| >= 3 ==> Lists(s, orderList) && Sorted(s)
      ensures found ==> Picks(Registered(), s, firstNewTxID, old(pausedTxIDs), pausedTxIDs)
      ensures old(MayDetect()) && |orderList| >= 3 && !found ==> forall i :: !FirstAt(Registered(), s, i)
      ensures Unmixed(Registered()) ==>
                (found <==> old(MayDetect()) && exists n :: n in orderList && Interleaved(Registered(), n))
      ensures Unmixed(Registered()) && found ==>
                && FirstInterleaved(Registered(), firstNewTxID)
                && forall id :: id in pausedTxIDs <==>
                     id in old(pausedTxIDs) || id in LaterOlds(Registered(), firstNewTxID)
    {
      hide Interleaved, FirstInterleaved, Unmixed, Lists, Sorted, Pattern, ListedOlds, LaterOlds;
      s := [];
      var r := Registered();
      ThreeAtLeast(r);
      if |orderList| < 3 || firstNewTxID > 0 || Phase(fsm) >= Phase(SyncOut) {
        return false, s;
      }
      var items := Items();
      Sort(items, orderList);
      s := items[..];
      ScanIs(r, s);
      var i := 0;
      while i + 2 < items.Length
        invariant unchanged(this) && items[..] == s
        invariant forall j :: 0 <= j < i && j + 2 < |s| ==> !Pattern(r, s, j)
      {
        PatternIs(r, s, i);
        if !r.New(items[i].id) && r.New(items[i + 1].id) && !r.New(items[i + 2].id) {
          firstNewTxID := items[i + 1].id;
          for k := i + 2 to items.Length
            invariant items[..] == s && unchanged(`orderList) && unchanged(`arrivalList)
            invariant forall id :: id in pausedTxIDs || id in ListedOlds(r, s, k) <==>
                        id in old(pausedTxIDs) || id in ListedOlds(r, s, i + 2)
            invariant firstNewTxID == items[i + 1].id && fsm == old(fsm)
          {
            ListedOldsFrom(r, s, k);
            if !r.New(items[k].id) {
              pausedTxIDs := pausedTxIDs + {items[k].id};
            }
          }
          ListedOldsFrom(r, s, |s|);
          syncNeeded, fsm := true, PauseOld;
          assert Registered() == r && FirstAt(r, s, i);
          ListedIsIn(s, orderList, i + 1);
          return true, s;
        }
        i := i + 1;
      }
      return false, s;
    }

    function View(): CtxView
      reads this`fsm, this`pausedTxIDs, this`firstNewTxID, this`orderList
    {
      CtxView(targetShard, mig1Time, fsm, pausedTxIDs, firstNewTxID, orderList)
    }

    /** Once a positive id is picked among unmixed times, the paused transactions of the
        register are its suffix-olds, and every registered transaction is new, or old and
        before the picked one, or paused. */
    lemma PausedAreSuffixOlds(id: int)
      requires firstNewTxID > 0 && Unmixed(Registered()) && FirstInterleaved(Registered(), firstNewTxID)
      requires id in orderList
      ensures id in LaterOlds(Registered(), firstNewTxID) <==>
                View().IsSuffixOldTx(id, orderList[id], Registered().Arrival(id))
      ensures Registered().New(id) || id in EarlierOlds(Registered(), firstNewTxID)
              || id in LaterOlds(Registered(), firstNewTxID)
      ensures EarlierOlds(Registered(), firstNewTxID) !! LaterOlds(Registered(), firstNewTxID)
    {
    }

    /** Every old transaction before the picked one is committed here, or out of the pool. */
    ghost predicate PrefixDone(inPool: set<int>)
      reads this
    {
      && firstNewTxID > 0 && firstNewTxID in orderList
      && forall id :: id in EarlierOlds(Registered(), firstNewTxID) ==> id in committedTx || id !in inPool
    }

    method PrefixOldAllCommitted() returns (all: bool)
      ensures all <==> && firstNewTxID > 0 && firstNewTxID in orderList
                       && forall id :: id in EarlierOlds(Registered(), firstNewTxID) ==> id in committedTx
    {
      if firstNewTxID <= 0 || firstNewTxID !in orderList {
        return false;
      }
      var firstTS, r := orderList[firstNewTxID], Registered();
      var left := orderList.Items;
      while left != {}
        invariant left <= orderList.Items
        invariant forall id :: id in EarlierOlds(r, firstNewTxID) && (id, orderList[id]) !in left ==> id in committedTx
        decreases |left|
      {
        var item :| item in left;
        left := left - {item};
        if !r.New(item.0) && item.1 < firstTS && item.0 !in committedTx {
          assert item.0 in EarlierOlds(r, firstNewTxID);
          return false;
        }
      }
      return true;
    }

    method PrefixOldReady(inPool: set<int>) returns (ready: bool)
      ensures ready <==> PrefixDone(inPool)
    {
      if firstNewTxID <= 0 || firstNewTxID !in orderList {
        return false;
      }
      var firstTS, r := orderList[firstNewTxID], Registered();
      var left := orderList.Items;
      while left != {}
        invariant left <= orderList.Items
        invariant forall id :: id in EarlierOlds(r, firstNewTxID) && (id, orderList[id]) !in left ==>
                    id in committedTx || id !in inPool
        decreases |left|
      {
        var item :| item in left;
        left := left - {item};
        if !r.New(item.0) && item.1 < firstTS && item.0 !in committedTx && item.0 in inPool {
          assert item.0 in EarlierOlds(r, firstNewTxID);
          return false;
        }
      }
      return true;
    }

    method MarkTxCommitted(id: int)
      modifies this`committedTx
      ensures committedTx == old(committedTx) + {id}
    {
      committedTx := committedTx + {id};
    }

    method ResumeAfterSyncAck()
      modifies this`pausedTxIDs, this`syncNeeded, this`fsm
      ensures pausedTxIDs == {} && !syncNeeded && fsm == Active
    {
      pausedTxIDs, syncNeeded, fsm := {}, false, Active;
    }

    /** The source side of the end of a block: the state is sent once the old prefix is
        done, if the account has a state. */
    method EndBlock(selfShard: int, inPool: set<int>, stateFound: bool) returns (sent: bool)
      modifies this`fsm
      ensures sent <==> && targetShard != selfShard && syncNeeded && old(fsm) == PauseOld
                        && old(PrefixDone(inPool)) && stateFound
      ensures fsm == if sent then SyncOut else old(fsm)
    {
      sent := false;
      if targetShard != selfShard && syncNeeded && fsm == PauseOld {
        var ready := PrefixOldAllCommitted();
        if !ready {
          ready := PrefixOldReady(inPool);
        }
        if ready && stateFound {
          fsm := SyncOut;
          sent := true;
        }
      }
    }

    /** The registered transactions in the order in which the map is read. */
    method Items() returns (items: array<Item>)
      ensures fresh(items) && Lists(items[..], orderList)
    {
      items := new Item[|orderList|](_ => Item(0, 0));
      var n := 0;
      var left := orderList.Items;
      ghost var done: map<int, int> := map[];
      ItemCount(orderList);
      while left != {}
        invariant n + |left| == |orderList| && left <= orderList.Items
        invariant Lists(items[..n], done)
        invariant forall id :: id in done <==> id in orderList && (id, orderList[id]) !in left
        invariant forall id :: id in done ==> done[id] == orderList[id]
        decreases |left|
      {
        var item :| item in left;
        left := left - {item};
        AppendLists(items[..n], done, item.0, item.1);
        items[n] := Item(item.0, item.1);
        assert items[..n + 1] == items[..n] + [Item(item.0, item.1)];
        done := done[item.0 := item.1];
        n := n + 1;
      }
      SameLists(items[..n], done, orderList);
      assert items[..n] == items[..];
    }
  }

  lemma {:induction false} ItemCount(o: map<int, int>)
    ensures |o.Items| == |o|
  {
  }

  lemma AppendLists(s: seq<Item>, o: map<int, int>, id: int, ts: int)
    requires Lists(s, o) && id !in o
    ensures Lists(s + [Item(id, ts)], o[id := ts])
  {
    var t := s + [Item(id, ts)];
    assert t[|s|].id == id;
    forall c | c in o ensures exists k :: 0 <= k < |t| && t[k].id == c {
      var k :| 0 <= k < |s| && s[k].id == c;
      assert t[k].id == c;
    }
  }

  lemma SameLists(s: seq<Item>, o: map<int, int>, p: map<int, int>)
    requires Lists(s, o)
    requires forall id :: id in o <==> id in p
    requires forall id :: id in o ==> o[id] == p[id]
    ensures Lists(s, p)
  {
  }

  lemma ThreeAtLeast(r: Register)
    ensures (exists n :: n in r.order && Interleaved(r, n)) ==> |r.order| >= 3
  {
    if n :| n in r.order && Interleaved(r, n) {
      var a, b :| Next(r.order, a, n) && Next(r.order, n, b) && !r.New(a) && !r.New(b);
      assert |{a, n, b}| == 3 && {a, n, b} <= r.order.Keys;
      SubsetSize({a, n, b}, r.order.Keys);
    }
  }

  /** The first place of the pattern. */
  ghost predicate FirstAt(r: Register, s: seq<Item>, i: int) {
    0 <= i && i + 2 < |s| && Pattern(r, s, i) && forall j :: 0 <= j < i ==> !Pattern(r, s, j)
  }

  /** The transaction at the first place of the pattern is picked, and the olds listed
      after it join the paused ones. */
  ghost predicate Picks(r: Register, s: seq<Item>, n: int, before: set<int>, after: set<int>) {
    exists i :: FirstAt(r, s, i) && n == s[i + 1].id
                && forall id :: id in after <==> id in before || id in ListedOlds(r, s, i + 2)
  }

  lemma PatternIs(r: Register, s: seq<Item>, i: nat)
    requires i + 2 < |s|
    ensures Pattern(r, s, i) <==> !r.New(s[i].id) && r.New(s[i + 1].id) && !r.New(s[i + 2].id)
  {
  }

  lemma ListedOldsFrom(r: Register, s: seq<Item>, k: nat)
    requires k <= |s|
    ensures forall id :: id in ListedOlds(r, s, k) <==>
              k < |s| && (id in ListedOlds(r, s, k + 1) || (id == s[k].id && !r.New(id)))
  {
  }

  /** What the scan of a sorted list means, when the times are distinct. */
  lemma ScanIs(r: Register, s: seq<Item>)
    requires Lists(s, r.order) && Sorted(s)
    ensures Unmixed(r) ==> forall i :: FirstAt(r, s, i) ==>
              && s[i + 1].id in r.order && Interleaved(r, s[i + 1].id) && FirstInterleaved(r, s[i + 1].id)
              && ListedOlds(r, s, i + 2) == LaterOlds(r, s[i + 1].id)
    ensures Unmixed(r) && (forall j :: 0 <= j && j + 2 < |s| ==> !Pattern(r, s, j)) ==>
              forall m :: !Interleaved(r, m)
  {
    hide Pattern, FirstInterleaved, ListedOlds, LaterOlds, Interleaved, Lists, Sorted, Unmixed;
    if Unmixed(r) {
      forall i | FirstAt(r, s, i)
        ensures s[i + 1].id in r.order && Interleaved(r, s[i + 1].id) && FirstInterleaved(r, s[i + 1].id)
        ensures ListedOlds(r, s, i + 2) == LaterOlds(r, s[i + 1].id)
      {
        FirstPattern(r, s, i);
      }
      if forall j :: 0 <= j && j + 2 < |s| ==> !Pattern(r, s, j) {
        NoPattern(r, s);
      }
    }
  }

  lemma ListedIsIn(s: seq<Item>, o: map<int, int>, k: nat)
    requires Lists(s, o) && k < |s|
    ensures s[k].id in o
  {
  }

  // ---------------------------------------------------------------------------
  // The life of a source context

  datatype Event =
    | Arrives(id: int, clientTS: int, arrivalTS: int)
    | Commits(id: int)
    | BlockEnds(inPool: set<int>, stateFound: bool)
    | Acked
    | Aborted

  predicate PositiveId(e: Event) {
    match e
    case Arrives(id, _, _) => id > 0
    case _ => true
  }

  /** In any history of a source context with positive ids, the detection succeeds at
      most once and at most one state is sent, at the end of some block. */
  method Live(ctx: MigAccountCtx, selfShard: int, events: seq<Event>) returns (detections: nat, sends: seq<nat>)
    requires ctx.firstNewTxID == 0 && ctx.fsm == Active && forall id :: id in ctx.orderList ==> id > 0
    requires forall e :: e in events ==> PositiveId(e)
    modifies ctx
    ensures |sends| <= detections <= 1
    ensures forall k :: 0 <= k < |sends| ==> sends[k] < |events| && events[sends[k]].BlockEnds?
  {
    detections, sends := 0, [];
    for i := 0 to |events|
      invariant forall id :: id in ctx.orderList ==> id > 0
      invariant |sends| <= detections <= 1
      invariant if detections == 0 then ctx.firstNewTxID <= 0 && ctx.fsm == Active else ctx.firstNewTxID > 0
      invariant |sends| > 0 ==> ctx.fsm != PauseOld
      invariant forall k :: 0 <= k < |sends| ==> sends[k] < |events| && events[sends[k]].BlockEnds?
    {
      assert PositiveId(events[i]);
      match events[i] {
        case Arrives(id, clientTS, arrivalTS) =>
          ctx.RegisterOrder(id, clientTS, arrivalTS);
          var found, s := ctx.DetectInterleave();
          if found { detections := detections + 1; }
        case Commits(id) =>
          ctx.MarkTxCommitted(id);
          var found, s := ctx.DetectInterleave();
          if found { detections := detections + 1; }
        case BlockEnds(inPool, stateFound) =>
          var out := ctx.EndBlock(selfShard, inPool, stateFound);
          if out { sends := sends + [i]; }
        case Acked =>
          ctx.ResumeAfterSyncAck();
        case Aborted =>
          ctx.syncNeeded, ctx.fsm, ctx.pausedTxIDs := false, Active, {};
      }
    }
  }

  lemma SameFirst(r: Register, n: int, m: int)
    requires FirstInterleaved(r, n) && FirstInterleaved(r, m)
    ensures n == m
  {
  }

  /** After a detection with unmixed times, a second one right behind it succeeds exactly
      when the picked id is not positive. */
  method DetectTwice(ctx: MigAccountCtx) returns (first: bool, second: bool)
    requires Unmixed(ctx.Registered())
    modifies ctx
    ensures first ==> (second <==> ctx.firstNewTxID <= 0)
  {
    hide Interleaved;
    ghost var s, t;
    first, s := ctx.DetectInterleave();
    ghost var n := ctx.firstNewTxID;
    second, t := ctx.DetectInterleave();
    if first && second { SameFirst(ctx.Registered(), n, ctx.firstNewTxID); }
  }

  /** Such a transaction: the one with id 0 between the olds 1 and 2. */
  lemma ZeroIsPicked() returns (r: Register)
    ensures Unmixed(r) && FirstInterleaved(r, 0)
  {
    r := Register(map[1 := 10, 0 := 20, 2 := 30], map[0 := 200], 100);
    ZeroIsBetween(r.order);
    hide Next;
    assert !r.New(1) && !r.New(2) && forall m :: r.New(m) ==> m == 0;
  }

  lemma ZeroIsBetween(o: map<int, int>)
    requires o == map[1 := 10, 0 := 20, 2 := 30]
    ensures DistinctTimes(o) && Next(o, 1, 0) && Next(o, 0, 2)
  {
  }
}
