/** The value of all accounts while some of them migrate, under the strategies that lock
    no account: chain/blockchain.go runs the blocks of each shard, pbft/pbftsingle.go and
    pbft/pbft.go carry relayed transfers, migrated balances, announcements and balance
    changes between the shards. */
module Conservation {
  import opened Wrappers

  /** An account as one shard sees it. It is live on the shard that is its location. */
  datatype Acct = Acct(balance: int, location: int)

  datatype Msg =
    | Relay(recipient: string, value: nat)               // a transfer on its way to its recipient
    | Mig2(address: string, balance: int, target: int)   // the balance an account moves with
    | Announced(address: string, owner: int, dest: int)  // tells shard dest who owns the account
    | Change(address: string, change: int, target: int)  // what the account gained after it had moved

  /** The state of one shard: its tree, and the balances with which accounts have left. */
  datatype Local = Local(accts: map<string, Acct>, before: map<string, int>)

  datatype Tx = Tx(sender: string, recipient: string, value: nat, isRelay: bool)

  /** The entries of a block, in the order in which a block holds them. */
  datatype Op =
    | OpMig2(address: string, value: int)
    | OpTx(tx: Tx)
    | OpMig1(address: string, target: int)
    | OpAnn(address: string, owner: int)
    | OpNs(address: string, change: int)

  function Get(l: Local, a: string): Acct {
    if a in l.accts then l.accts[a] else Acct(0, -1)
  }

  function BeforeOf(l: Local, a: string): int {
    if a in l.before then l.before[a] else 0
  }

  predicate Live(l: Local, self: nat, a: string) {
    a in l.accts && l.accts[a].location == self
  }

  function WithAcct(l: Local, a: string, x: Acct): Local {
    l.(accts := l.accts[a := x])
  }

  function WithBalance(l: Local, a: string, balance: int): Local {
    WithAcct(l, a, Get(l, a).(balance := balance))
  }

  /** The announcement to the shards below n, but for the owner itself. */
  function Announcements(a: string, owner: int, n: nat): seq<Msg> {
    if n == 0 then [] else
    Announcements(a, owner, n - 1) + if n - 1 == owner then [] else [Announced(a, owner, n - 1)]
  }

  function Paid(l: Local, tx: Tx): Local {
    if tx.isRelay then l else WithBalance(l, tx.sender, Get(l, tx.sender).balance - tx.value)
  }

  /** What one entry does on shard self of n, and what is sent for it. */
  function Apply(self: nat, n: nat, l: Local, op: Op): (Local, seq<Msg>) {
    match op
    case OpMig2(a, value) => (WithAcct(l, a, Acct(value, self)), Announcements(a, self, n))
    case OpTx(tx) =>
      var p := Paid(l, tx);
      if Live(p, self, tx.recipient) then
        (WithBalance(p, tx.recipient, Get(p, tx.recipient).balance + tx.value), [])
      else (p, if tx.isRelay then [] else [Relay(tx.recipient, tx.value)])
    case OpMig1(a, target) =>
      (l.(before := l.before[a := Get(l, a).balance]), [Mig2(a, Get(l, a).balance, target)])
    case OpAnn(a, owner) =>
      var change := Get(l, a).balance - BeforeOf(l, a);
      var moved := WithAcct(l, a, Get(l, a).(location := owner));
      if Live(l, self, a) then
        (moved.(before := moved.before - {a}), if change == 0 then [] else [Change(a, change, owner)])
      else (moved, [])
    case OpNs(a, change) => (WithBalance(l, a, Get(l, a).balance + change), [])
  }

  // ---------------------------------------------------------------------------
  // Sums

  ghost function Sum(m: map<string, int>): int
    decreases |m|
  {
    if m == map[] then 0 else
    var a :| a in m;
    m[a] + Sum(m - {a})
  }

  lemma {:induction false} AnyOrder(m: map<string, int>, a: string)
    requires a in m
    ensures Sum(m) == m[a] + Sum(m - {a})
    decreases |m|
  {
    var b :| b in m && Sum(m) == m[b] + Sum(m - {b});
    if a != b {
      AnyOrder(m - {b}, a);
      AnyOrder(m - {a}, b);
      assert m - {a} - {b} == m - {b} - {a};
    }
  }

  function Term(m: map<string, int>, a: string): int {
    if a in m then m[a] else 0
  }

  lemma SumUpdate(m: map<string, int>, a: string, x: int)
    ensures Sum(m[a := x]) == Sum(m) - Term(m, a) + x
    ensures Sum(m - {a}) == Sum(m) - Term(m, a)
  {
    AnyOrder(m[a := x], a);
    assert m[a := x] - {a} == m - {a};
    if a in m {
      AnyOrder(m, a);
    } else {
      assert m - {a} == m;
    }
  }

  /** The balances that are live on the shard. */
  ghost function LiveTerms(self: nat, accts: map<string, Acct>): map<string, int> {
    map a | a in accts :: if accts[a].location == self then accts[a].balance else 0
  }

  /** What a shard's state is worth: its live balances, without those that have already
      left with their accounts. */
  ghost function Worth(self: nat, l: Local): int {
    Sum(LiveTerms(self, l.accts)) - Sum(l.before)
  }

  function Value(m: Msg): int {
    match m
    case Relay(_, value) => value
    case Mig2(_, balance, _) => balance
    case Announced(_, _, _) => 0
    case Change(_, change, _) => change
  }

  function NetValue(net: seq<Msg>): int {
    if net == [] then 0 else NetValue(net[..|net| - 1]) + Value(net[|net| - 1])
  }

  lemma {:induction false} NetJoined(net: seq<Msg>, more: seq<Msg>)
    ensures NetValue(net + more) == NetValue(net) + NetValue(more)
  {
    if more == [] {
      assert net + more == net;
    } else {
      assert (net + more)[..|net + more| - 1] == net + more[..|more| - 1];
      NetJoined(net, more[..|more| - 1]);
    }
  }

  function Taken(net: seq<Msg>, i: nat): seq<Msg>
    requires i < |net|
  {
    net[..i] + net[i + 1..]
  }

  lemma NetTaken(net: seq<Msg>, i: nat)
    requires i < |net|
    ensures NetValue(Taken(net, i)) == NetValue(net) - Value(net[i])
  {
    hide NetValue;
    NetJoined(net[..i], net[i..]);
    NetJoined([net[i]], net[i + 1..]);
    NetJoined(net[..i], net[i + 1..]);
    NetOne(net[i]);
    assert net[i..] == [net[i]] + net[i + 1..] && net == net[..i] + net[i..];
  }

  lemma NetOne(m: Msg)
    ensures NetValue([m]) == Value(m)
  {
    assert [m][..0] == [];
  }

  lemma {:induction false} AnnouncementsAreFree(a: string, owner: int, n: nat)
    ensures NetValue(Announcements(a, owner, n)) == 0
    ensures forall m :: m in Announcements(a, owner, n) ==>
              m.Announced? && m.address == a && m.owner == owner && m.dest != owner
  {
    if n > 0 {
      AnnouncementsAreFree(a, owner, n - 1);
      if n - 1 != owner {
        NetJoined(Announcements(a, owner, n - 1), [Announced(a, owner, n - 1)]);
        NetOne(Announced(a, owner, n - 1));
      } else {
        assert Announcements(a, owner, n) == Announcements(a, owner, n - 1);
      }
    }
  }

  /** What a change of one account does to the worth of a shard. */
  lemma WorthOfAcct(self: nat, l: Local, a: string, x: Acct)
    ensures Worth(self, WithAcct(l, a, x)) == Worth(self, l)
            - (if Live(l, self, a) then l.accts[a].balance else 0)
            + if x.location == self then x.balance else 0
  {
    hide Sum;
    var terms := LiveTerms(self, l.accts);
    SumUpdate(terms, a, if x.location == self then x.balance else 0);
    assert LiveTerms(self, l.accts[a := x]) == terms[a := if x.location == self then x.balance else 0];
  }

  // ---------------------------------------------------------------------------
  // What each entry does to the value, exactly

  /** A transfer keeps the value if its sender is live here, or, for a relay that is taken
      out of the net, if its recipient is. */
  lemma TxKeeps(self: nat, n: nat, l: Local, tx: Tx)
    requires if tx.isRelay then Live(l, self, tx.recipient) else Live(l, self, tx.sender)
    ensures
      var (k, sent) := Apply(self, n, l, OpTx(tx));
      Worth(self, k) + NetValue(sent) == Worth(self, l) + if tx.isRelay then tx.value else 0
  {
    hide Worth;
    var p := Paid(l, tx);
    if !tx.isRelay {
      WorthOfAcct(self, l, tx.sender, Get(l, tx.sender).(balance := Get(l, tx.sender).balance - tx.value));
    }
    if Live(p, self, tx.recipient) {
      WorthOfAcct(self, p, tx.recipient, Get(p, tx.recipient).(balance := Get(p, tx.recipient).balance + tx.value));
    }
    NetOne(Relay(tx.recipient, tx.value));
  }

  /** The target of a migration keeps the value exactly when the account was not live
      there, or without balance. */
  lemma Mig2Keeps(self: nat, n: nat, l: Local, a: string, value: int)
    ensures
      var (k, sent) := Apply(self, n, l, OpMig2(a, value));
      Worth(self, k) + NetValue(sent) == Worth(self, l) + value <==> !Live(l, self, a) || l.accts[a].balance == 0
  {
    hide Worth;
    WorthOfAcct(self, l, a, Acct(value, self));
    AnnouncementsAreFree(a, self, n);
  }

  /** The source keeps the value exactly when the account does not leave it twice at once
      (or left with nothing before). */
  lemma Mig1Keeps(self: nat, n: nat, l: Local, a: string, target: int)
    ensures
      var (k, sent) := Apply(self, n, l, OpMig1(a, target));
      Worth(self, k) + NetValue(sent) == Worth(self, l) <==> BeforeOf(l, a) == 0
  {
    hide Sum;
    SumUpdate(l.before, a, Get(l, a).balance);
    NetOne(Mig2(a, Get(l, a).balance, target));
  }

  /** An announcement keeps the value, always if it names another owner. */
  lemma AnnKeeps(self: nat, n: nat, l: Local, a: string, owner: int)
    requires owner != self
    ensures
      var (k, sent) := Apply(self, n, l, OpAnn(a, owner));
      Worth(self, k) + NetValue(sent) == Worth(self, l)
  {
    hide Sum;
    var moved := WithAcct(l, a, Get(l, a).(location := owner));
    WorthOfAcct(self, l, a, Get(l, a).(location := owner));
    SumUpdate(moved.before, a, 0);
    var change := Get(l, a).balance - BeforeOf(l, a);
    NetOne(Change(a, change, owner));
  }

  /** The change of a balance reaches the account exactly when it is live on the shard, or
      nothing is changed. */
  lemma NsKeeps(self: nat, n: nat, l: Local, a: string, change: int)
    ensures
      var (k, sent) := Apply(self, n, l, OpNs(a, change));
      Worth(self, k) + NetValue(sent) == Worth(self, l) + change <==> Live(l, self, a) || change == 0
  {
    hide Worth;
    WorthOfAcct(self, l, a, Get(l, a).(balance := Get(l, a).balance + change));
  }

  // ---------------------------------------------------------------------------
  // Runs of all shards

  datatype World = World(shards: seq<Local>, net: seq<Msg>)

  /** An entry runs on a shard, and may take a message out of the net. */
  datatype Action = Act(self: nat, op: Op, taken: Option<nat>)

  /** The message is about the migration of the account. */
  predicate About(m: Msg, a: string) {
    !m.Relay? && m.address == a
  }

  predicate Takes(w: World, act: Action, m: Msg) {
    act.taken.Some? && act.taken.value < |w.net| && w.net[act.taken.value] == m
  }

  predicate LiveAt(w: World, i: int, a: string) {
    0 <= i < |w.shards| && Live(w.shards[i], i, a)
  }

  /** Nothing on its way stops the account from leaving for the target: its last migration
      is over but for announcements to shards where it neither lives nor goes. */
  predicate Clear(w: World, a: string, target: int) {
    forall m :: m in w.net && About(m, a) ==> m.Announced? && m.dest != target && !LiveAt(w, m.dest, a)
  }

  /** An entry runs on what was sent for it. A transfer runs where its sender is live, or,
      as a relay, where its recipient is; an account leaves the shard where it is live, for
      another one. */
  ghost predicate Possible(w: World, act: Action) {
    act.self < |w.shards|
    && match act.op
       case OpMig2(a, value) => Takes(w, act, Mig2(a, value, act.self))
       case OpTx(tx) =>
         if tx.isRelay then
           Takes(w, act, Relay(tx.recipient, tx.value)) && Live(w.shards[act.self], act.self, tx.recipient)
         else act.taken == None && Live(w.shards[act.self], act.self, tx.sender)
       case OpMig1(a, target) =>
         && act.taken == None && Live(w.shards[act.self], act.self, a)
         && 0 <= target < |w.shards| && target != act.self
       case OpAnn(a, owner) => Takes(w, act, Announced(a, owner, act.self))
       case OpNs(a, change) => Takes(w, act, Change(a, change, act.self))
  }

  /** Accounts leave only when the way is clear. */
  ghost predicate Enabled(w: World, act: Action) {
    Possible(w, act) && (act.op.OpMig1? ==> Clear(w, act.op.address, act.op.target))
  }

  function Left(net: seq<Msg>, taken: Option<nat>): seq<Msg> {
    if taken.Some? && taken.value < |net| then Taken(net, taken.value) else net
  }

  function Next(w: World, act: Action): World
    requires act.self < |w.shards|
  {
    var (k, sent) := Apply(act.self, |w.shards|, w.shards[act.self], act.op);
    World(w.shards[act.self := k], Left(w.net, act.taken) + sent)
  }

  ghost predicate Reaches(w: World, acts: seq<Action>, u: World) {
    if acts == [] then u == w else
    var front, act := acts[..|acts| - 1], acts[|acts| - 1];
    exists v :: Reaches(w, front, v) && Enabled(v, act) && u == Next(v, act)
  }

  ghost function TotalWorth(shards: seq<Local>, n: nat): int
    requires n <= |shards|
  {
    if n == 0 then 0 else TotalWorth(shards, n - 1) + Worth(n - 1, shards[n - 1])
  }

  /** All there is: what the shards are worth, and what is on its way. */
  ghost function Total(w: World): int {
    TotalWorth(w.shards, |w.shards|) + NetValue(w.net)
  }

  lemma {:induction false} WorthUpdate(shards: seq<Local>, i: nat, l: Local, n: nat)
    requires i < |shards| && n <= |shards|
    ensures TotalWorth(shards[i := l], n) == TotalWorth(shards, n)
            + if i < n then Worth(i, l) - Worth(i, shards[i]) else 0
  {
    hide Worth;
    if n > 0 { WorthUpdate(shards, i, l, n - 1); }
  }

  // ---------------------------------------------------------------------------
  // Where an account is

  /** An account is settled on one shard; or it is leaving, with its balance on the way; or
      it is live on both shards until the announcement has reached the first. */
  datatype Phase = Settled(home: int) | Leaving(source: int, target: int) | Both(source: int, target: int)

  ghost predicate LiveOn(w: World, a: string, homes: set<int>) {
    forall i :: 0 <= i < |w.shards| ==> (Live(w.shards[i], i, a) <==> i in homes)
  }

  ghost predicate BeforeOn(w: World, a: string, sources: set<int>) {
    forall i :: 0 <= i < |w.shards| ==> (a in w.shards[i].before <==> i in sources)
  }

  /** An announcement to shards where it changes nothing, whomever it names. */
  predicate Outdated(m: Msg, homes: set<int>) {
    m.Announced? && m.dest != m.owner && m.dest !in homes
  }

  ghost predicate In(w: World, a: string, p: Phase) {
    match p
    case Settled(h) =>
      && 0 <= h < |w.shards| && LiveOn(w, a, {h}) && BeforeOn(w, a, {})
      && forall m :: m in w.net && About(m, a) ==>
           Outdated(m, {h}) || (m.Change? && m.target == h && m.change != 0)
    case Leaving(s, t) =>
      && 0 <= s < |w.shards| && 0 <= t < |w.shards| && s != t && LiveOn(w, a, {s}) && BeforeOn(w, a, {s})
      && var m := Mig2(a, BeforeOf(w.shards[s], a), t);
         multiset(w.net)[m] == 1 && forall k :: k in w.net && About(k, a) ==> k == m || Outdated(k, {s, t})
    case Both(s, t) =>
      && 0 <= s < |w.shards| && 0 <= t < |w.shards| && s != t && LiveOn(w, a, {s, t}) && BeforeOn(w, a, {s})
      && Announced(a, t, s) in w.net
      && forall m :: m in w.net && About(m, a) ==> m == Announced(a, t, s) || Outdated(m, {s, t})
  }

  ghost predicate Inv(w: World, phases: map<string, Phase>) {
    && (forall a :: a in phases ==> In(w, a, phases[a]))
    && (forall m, a :: m in w.net && About(m, a) ==> a in phases)
    && (forall i, a :: 0 <= i < |w.shards| && (Live(w.shards[i], i, a) || a in w.shards[i].before) ==> a in phases)
  }

  function NextPhases(phases: map<string, Phase>, act: Action): map<string, Phase> {
    match act.op
    case OpMig1(a, target) => phases[a := Leaving(act.self, target)]
    case OpMig2(a, _) =>
      if a in phases && phases[a].Leaving? then phases[a := Both(phases[a].source, act.self)] else phases
    case OpAnn(a, owner) =>
      if a in phases && phases[a] == Both(act.self, owner) then phases[a := Settled(owner)] else phases
    case _ => phases
  }

  /** To the account nothing happens. */
  ghost predicate Untouched(w: World, u: World, a: string) {
    && |u.shards| == |w.shards|
    && (forall i :: 0 <= i < |w.shards| ==>
          (Live(u.shards[i], i, a) <==> Live(w.shards[i], i, a))
          && (a in u.shards[i].before <==> a in w.shards[i].before)
          && BeforeOf(u.shards[i], a) == BeforeOf(w.shards[i], a))
    && (forall m :: About(m, a) ==> multiset(u.net)[m] == multiset(w.net)[m])
  }

  lemma UntouchedStays(w: World, u: World, a: string, p: Phase)
    requires Untouched(w, u, a) && In(w, a, p)
    ensures In(u, a, p)
  {
    forall m | About(m, a) ensures m in u.net <==> m in w.net {
      assert multiset(u.net)[m] == multiset(w.net)[m];
    }
  }

  lemma TakenIs(net: seq<Msg>, i: nat)
    requires i < |net|
    ensures multiset(Taken(net, i)) == multiset(net) - multiset{net[i]}
    ensures forall m :: m in Taken(net, i) ==> m in net
    ensures forall m :: m in net && m != net[i] ==> m in Taken(net, i)
  {
    assert net == net[..i] + [net[i]] + net[i + 1..];
    forall m | m in net && m != net[i] ensures m in Taken(net, i) {
      assert m in net[..i] || m in net[i + 1..];
    }
  }

  /** The account whose migration an entry moves forward. */
  function AddressOf(op: Op): Option<string> {
    match op
    case OpMig2(a, _) => Some(a)
    case OpTx(_) => None
    case OpMig1(a, _) => Some(a)
    case OpAnn(a, _) => Some(a)
    case OpNs(a, _) => Some(a)
  }

  lemma SentIsAbout(self: nat, n: nat, l: Local, op: Op, b: string)
    requires AddressOf(op) != Some(b)
    ensures forall m :: m in Apply(self, n, l, op).1 ==> !About(m, b)
  {
    if op.OpMig2? { AnnouncementsAreFree(op.address, self, n); }
  }

  lemma StateElsewhere(self: nat, n: nat, l: Local, op: Op, b: string)
    requires AddressOf(op) != Some(b)
    requires op.OpTx? ==> if op.tx.isRelay then Live(l, self, op.tx.recipient) else Live(l, self, op.tx.sender)
    ensures
      var k := Apply(self, n, l, op).0;
      && (Live(k, self, b) <==> Live(l, self, b)) && (b in k.before <==> b in l.before)
      && BeforeOf(k, b) == BeforeOf(l, b)
  {
  }

  lemma TakenElsewhere(w: World, act: Action, m: Msg, b: string)
    requires Enabled(w, act) && AddressOf(act.op) != Some(b) && About(m, b)
    ensures multiset(Left(w.net, act.taken))[m] == multiset(w.net)[m]
  {
    if act.taken.Some? && act.taken.value < |w.net| {
      TakenIsAbout(w, act, b);
      hide Enabled, Taken, About;
      TakenIs(w.net, act.taken.value);
      assert m != w.net[act.taken.value];
    }
  }

  lemma TakenIsAbout(w: World, act: Action, b: string)
    requires Enabled(w, act) && AddressOf(act.op) != Some(b)
    requires act.taken.Some? && act.taken.value < |w.net|
    ensures !About(w.net[act.taken.value], b)
  {
  }

  lemma OthersUntouched(w: World, act: Action, b: string)
    requires Enabled(w, act) && AddressOf(act.op) != Some(b)
    ensures Untouched(w, Next(w, act), b)
  {
    hide Apply, Left;
    var u, l := Next(w, act), w.shards[act.self];
    StateElsewhere(act.self, |w.shards|, l, act.op, b);
    SentIsAbout(act.self, |w.shards|, l, act.op, b);
    var sent := Apply(act.self, |w.shards|, l, act.op).1;
    forall m | About(m, b) ensures multiset(u.net)[m] == multiset(w.net)[m] {
      TakenElsewhere(w, act, m, b);
      assert m !in sent;
      assert multiset(u.net) == multiset(Left(w.net, act.taken)) + multiset(sent);
      assert multiset(sent)[m] == 0;
    }
  }

  lemma {:induction false} AnnouncementReaches(a: string, owner: int, n: nat, dest: int)
    requires 0 <= dest < n && dest != owner
    ensures Announced(a, owner, dest) in Announcements(a, owner, n)
  {
    if dest < n - 1 { AnnouncementReaches(a, owner, n - 1, dest); }
  }

  lemma NoneMoving(w: World, a: string, balance: int, t: int)
    requires Clear(w, a, t)
    ensures multiset(w.net)[Mig2(a, balance, t)] == 0
  {
    assert About(Mig2(a, balance, t), a);
  }

  lemma OnTheMove(w: World, a: string, p: Phase)
    requires In(w, a, p) && p.Leaving?
    ensures exists m :: m in w.net && About(m, a) && m.Mig2?
  {
    assert About(Mig2(a, BeforeOf(w.shards[p.source], a), p.target), a);
  }

  lemma Mig1Step(w: World, act: Action, p: Phase)
    requires Enabled(w, act) && act.op.OpMig1? && In(w, act.op.address, p)
    ensures p == Settled(act.self) && In(Next(w, act), act.op.address, Leaving(act.self, act.op.target))
  {
    var a, t, l := act.op.address, act.op.target, w.shards[act.self];
    var u, m := Next(w, act), Mig2(a, Get(l, a).balance, t);
    NoneMoving(w, a, Get(l, a).balance, t);
    assert About(Announced(a, t, act.self), a) && Live(w.shards[act.self], act.self, a);
    if p.Leaving? { OnTheMove(w, a, p); }
    assert p.Settled?;
    assert u.net == w.net + [m];
    assert multiset(u.net)[Mig2(a, Get(l, a).balance, t)] == 1;
  }

  lemma OnlyOneTaken(net: seq<Msg>, a: string, b: int, t: int, i: nat)
    requires i < |net| && net[i].Mig2? && net[i].address == a
    requires multiset(net)[Mig2(a, b, t)] == 1
    requires forall m :: m in net && About(m, a) ==> m == Mig2(a, b, t) || m.Announced?
    ensures net[i].target == t
    ensures forall m :: m in Taken(net, i) && About(m, a) ==> m.Announced? && m in net
  {
    assert net[i] in net && About(net[i], a);
    TakenIs(net, i);
    assert multiset(Taken(net, i))[net[i]] == 0;
  }

  lemma Mig2Step(w: World, act: Action, p: Phase)
    requires Enabled(w, act) && act.op.OpMig2? && In(w, act.op.address, p)
    ensures p.Leaving? && p.target == act.self && !Live(w.shards[act.self], act.self, act.op.address)
    ensures In(Next(w, act), act.op.address, Both(p.source, act.self))
  {
    var a, i := act.op.address, act.taken.value;
    hide LiveOn, BeforeOn, Taken, Announcements;
    assert w.net[i] in w.net && About(w.net[i], a);
    assert p.Leaving?;
    ArrivedNet(w.net, a, BeforeOf(w.shards[p.source], a), p.source, p.target, i, |w.shards|);
    assert Next(w, act).net == Taken(w.net, i) + Announcements(a, act.self, |w.shards|);
    ArrivedLive(w, Next(w, act), a, p.source, act.self, act.op.value);
  }

  lemma ArrivedNet(net: seq<Msg>, a: string, b: int, s: int, t: int, i: nat, n: nat)
    requires i < |net| && net[i].Mig2? && net[i].address == a && 0 <= s < n && s != t
    requires multiset(net)[Mig2(a, b, t)] == 1
    requires forall m :: m in net && About(m, a) ==> m == Mig2(a, b, t) || Outdated(m, {s, t})
    ensures
      var left := Taken(net, i) + Announcements(a, t, n);
      && net[i].target == t && Announced(a, t, s) in left
      && forall m :: m in left && About(m, a) ==> m == Announced(a, t, s) || Outdated(m, {s, t})
  {
    hide Taken;
    OnlyOneTaken(net, a, b, t, i);
    AnnouncementsAreFree(a, t, n);
    AnnouncementReaches(a, t, n, s);
  }

  lemma ArrivedLive(w: World, u: World, a: string, s: nat, t: nat, value: int)
    requires s < |w.shards| && t < |w.shards| && s != t && LiveOn(w, a, {s}) && BeforeOn(w, a, {s})
    requires u.shards == w.shards[t := WithAcct(w.shards[t], a, Acct(value, t))]
    ensures !Live(w.shards[t], t, a) && LiveOn(u, a, {s, t}) && BeforeOn(u, a, {s})
  {
  }

  /** The announcement that the account of this shard has arrived at its target. */
  lemma AnnDeparted(w: World, act: Action, s: int, t: int)
    requires Enabled(w, act) && act.op.OpAnn? && In(w, act.op.address, Both(s, t)) && act.self == s
    ensures act.op.owner == t && In(Next(w, act), act.op.address, Settled(t))
  {
    var a, i := act.op.address, act.taken.value;
    assert w.net[i] in w.net && About(w.net[i], a);
    TakenIs(w.net, i);
  }

  lemma AnnElsewhere(w: World, act: Action, p: Phase, homes: set<int>)
    requires Enabled(w, act) && act.op.OpAnn? && In(w, act.op.address, p)
    requires homes == if p.Settled? then {p.home} else {p.source, p.target}
    requires Outdated(Announced(act.op.address, act.op.owner, act.self), homes)
    ensures In(Next(w, act), act.op.address, p)
  {
    var a, i := act.op.address, act.taken.value;
    assert !LiveAt(w, act.self, a);
    TakenIs(w.net, i);
    assert Next(w, act).net == Taken(w.net, i);
    hide Taken;
  }

  lemma AnnStep(w: World, act: Action, p: Phase)
    requires Enabled(w, act) && act.op.OpAnn? && In(w, act.op.address, p)
    ensures act.op.owner != act.self
    ensures In(Next(w, act), act.op.address, if p == Both(act.self, act.op.owner) then Settled(act.op.owner) else p)
  {
    hide LiveOn, BeforeOn, Next;
    var a, i := act.op.address, act.taken.value;
    assert w.net[i] in w.net && About(w.net[i], a);
    if p.Both? && act.self == p.source {
      AnnDeparted(w, act, p.source, p.target);
    } else {
      AnnElsewhere(w, act, p, if p.Settled? then {p.home} else {p.source, p.target});
    }
  }

  lemma NsStep(w: World, act: Action, p: Phase)
    requires Enabled(w, act) && act.op.OpNs? && In(w, act.op.address, p)
    ensures Live(w.shards[act.self], act.self, act.op.address)
    ensures In(Next(w, act), act.op.address, p)
  {
    var a, i := act.op.address, act.taken.value;
    assert w.net[i] in w.net && About(w.net[i], a);
    TakenIs(w.net, i);
    assert p.Settled?;
  }

  lemma InvStep(w: World, act: Action, phases: map<string, Phase>)
    requires Inv(w, phases) && Enabled(w, act)
    ensures Inv(Next(w, act), NextPhases(phases, act))
  {
    hide In, Untouched, Apply, Left, Enabled;
    OwnPhaseKnown(w, act, phases);
    var u, next := Next(w, act), NextPhases(phases, act);
    forall b | b in next ensures In(u, b, next[b]) {
      if AddressOf(act.op) == Some(b) {
        OwnStep(w, act, phases);
      } else {
        OthersUntouched(w, act, b);
        UntouchedStays(w, u, b, phases[b]);
      }
    }
    forall m, b | m in u.net && About(m, b) ensures b in next {
      if AddressOf(act.op) != Some(b) {
        OthersUntouched(w, act, b);
        UntouchedMessage(w, u, b, m);
      }
    }
    forall i, b | 0 <= i < |u.shards| && (Live(u.shards[i], i, b) || b in u.shards[i].before) ensures b in next {
      if AddressOf(act.op) != Some(b) {
        OthersUntouched(w, act, b);
        UntouchedLive(w, u, b, i);
      }
    }
  }

  lemma UntouchedMessage(w: World, u: World, b: string, m: Msg)
    requires Untouched(w, u, b) && m in u.net && About(m, b)
    ensures m in w.net
  {
    assert multiset(u.net)[m] == multiset(w.net)[m];
  }

  lemma UntouchedLive(w: World, u: World, b: string, i: nat)
    requires Untouched(w, u, b) && i < |u.shards| && (Live(u.shards[i], i, b) || b in u.shards[i].before)
    ensures i < |w.shards| && (Live(w.shards[i], i, b) || b in w.shards[i].before)
  {
  }

  lemma OwnPhaseKnown(w: World, act: Action, phases: map<string, Phase>)
    requires Inv(w, phases) && Enabled(w, act)
    ensures act.self < |w.shards|
    ensures AddressOf(act.op).Some? ==> AddressOf(act.op).value in phases
  {
    hide In;
    if act.taken.Some? && act.taken.value < |w.net| {
      assert w.net[act.taken.value] in w.net;
      if AddressOf(act.op).Some? && !act.op.OpMig1? {
        assert About(w.net[act.taken.value], AddressOf(act.op).value);
      }
    }
  }

  lemma OwnStep(w: World, act: Action, phases: map<string, Phase>)
    requires Inv(w, phases) && Enabled(w, act) && AddressOf(act.op).Some?
    requires AddressOf(act.op).value in phases
    ensures
      var a := AddressOf(act.op).value;
      a in NextPhases(phases, act) && In(Next(w, act), a, NextPhases(phases, act)[a])
  {
    hide In, Apply;
    match act.op {
      case OpMig1(a, t) => Mig1Step(w, act, phases[a]);
      case OpMig2(a, v) => Mig2Step(w, act, phases[a]);
      case OpAnn(a, o) => AnnStep(w, act, phases[a]);
      case OpNs(a, c) => NsStep(w, act, phases[a]);
    }
  }

  /** The total changes by what an entry does to the worth of its shard, with what it
      sends and without what it takes. */
  lemma TotalMoves(w: World, act: Action)
    requires act.self < |w.shards|
    ensures
      var l, (k, sent) := w.shards[act.self], Apply(act.self, |w.shards|, w.shards[act.self], act.op);
      Total(Next(w, act)) - Total(w) == Worth(act.self, k) + NetValue(sent) - Worth(act.self, l)
        - if act.taken.Some? && act.taken.value < |w.net| then Value(w.net[act.taken.value]) else 0
  {
    hide Worth, TotalWorth, Apply;
    var (k, sent) := Apply(act.self, |w.shards|, w.shards[act.self], act.op);
    WorthUpdate(w.shards, act.self, k, |w.shards|);
    NetJoined(Left(w.net, act.taken), sent);
    if act.taken.Some? && act.taken.value < |w.net| { NetTaken(w.net, act.taken.value); }
  }

  /** Every entry keeps the total. */
  lemma TotalStep(w: World, act: Action, phases: map<string, Phase>)
    requires Inv(w, phases) && Enabled(w, act)
    ensures Total(Next(w, act)) == Total(w)
  {
    hide In, Worth, Total, Apply, Next, Left;
    var n, l := |w.shards|, w.shards[act.self];
    OwnPhaseKnown(w, act, phases);
    TotalMoves(w, act);
    match act.op {
      case OpTx(tx) => TxKeeps(act.self, n, l, tx);
      case OpMig2(a, value) => Mig2Step(w, act, phases[a]); Mig2Keeps(act.self, n, l, a, value);
      case OpMig1(a, target) => Mig1Step(w, act, phases[a]); NothingBefore(w, a, act.self);
                                Mig1Keeps(act.self, n, l, a, target);
      case OpAnn(a, owner) => AnnStep(w, act, phases[a]); AnnKeeps(act.self, n, l, a, owner);
      case OpNs(a, change) => NsStep(w, act, phases[a]); NsKeeps(act.self, n, l, a, change);
    }
  }

  lemma NothingBefore(w: World, a: string, h: nat)
    requires In(w, a, Settled(h))
    ensures h < |w.shards| && BeforeOf(w.shards[h], a) == 0
  {
  }

  /** The worlds that runs start from: every account lives on one shard, nothing has left
      a shard, and nothing but relayed transfers is on its way. */
  ghost predicate Initial(w: World, homes: map<string, int>) {
    && (forall a :: a in homes ==> 0 <= homes[a] < |w.shards|)
    && (forall i, a :: 0 <= i < |w.shards| ==> (Live(w.shards[i], i, a) <==> a in homes && homes[a] == i))
    && (forall i :: 0 <= i < |w.shards| ==> w.shards[i].before == map[])
    && (forall m :: m in w.net ==> m.Relay?)
  }

  /** Runs keep the total and leave every account in some phase. */
  lemma {:induction false} InvHolds(w: World, start: map<string, Phase>, acts: seq<Action>, u: World)
    returns (phases: map<string, Phase>)
    requires Inv(w, start) && Reaches(w, acts, u)
    ensures Inv(u, phases) && phases.Keys == start.Keys && Total(u) == Total(w)
  {
    hide Inv, Next, Total, Apply;
    if acts == [] {
      phases := start;
    } else {
      var front, act := acts[..|acts| - 1], acts[|acts| - 1];
      var v :| Reaches(w, front, v) && Enabled(v, act) && u == Next(v, act);
      var before := InvHolds(w, start, front, v);
      InvStep(v, act, before);
      TotalStep(v, act, before);
      OwnPhaseKnown(v, act, before);
      phases := NextPhases(before, act);
    }
  }

  lemma InitialInv(w: World, homes: map<string, int>, phases: map<string, Phase>)
    requires Initial(w, homes) && phases == map a | a in homes :: Settled(homes[a])
    ensures Inv(w, phases)
  {
  }

  /** Over every run of blocks and messages the total stays the same. */
  lemma ValueIsConserved(w: World, homes: map<string, int>, acts: seq<Action>, u: World)
    requires Initial(w, homes) && Reaches(w, acts, u)
    ensures Total(u) == Total(w)
  {
    var start := map a | a in homes :: Settled(homes[a]);
    InitialInv(w, homes, start);
    var phases := InvHolds(w, start, acts, u);
  }

  // ---------------------------------------------------------------------------
  // When an account may leave

  /** Whatever runs from here keeps the total, and the account live on some shard. */
  ghost predicate Safe(w: World, a: string) {
    forall acts, u :: Reaches(w, acts, u) ==> Total(u) == Total(w) && exists i :: LiveAt(u, i, a)
  }

  lemma ReachesMore(w: World, acts: seq<Action>, v: World, act: Action)
    requires Reaches(w, acts, v) && Enabled(v, act)
    ensures Reaches(w, acts + [act], Next(v, act))
  {
    hide Enabled, Next;
    var all := acts + [act];
    assert all[..|all| - 1] == acts && all[|all| - 1] == act;
  }

  lemma LiveSomewhere(w: World, a: string, p: Phase)
    requires In(w, a, p)
    ensures exists i :: LiveAt(w, i, a)
  {
    var i := if p.Settled? then p.home else p.source;
    assert i in {i} && LiveAt(w, i, a);
  }

  lemma ClearIsSafe(w: World, phases: map<string, Phase>, a: string)
    requires Inv(w, phases) && a in phases
    ensures Safe(w, a)
  {
    hide Inv, Total, In, Reaches, LiveAt;
    forall acts, u | Reaches(w, acts, u) ensures Total(u) == Total(w) && exists i :: LiveAt(u, i, a) {
      var later := InvHolds(w, phases, acts, u);
      InPhase(u, later, a);
      LiveSomewhere(u, a, later[a]);
    }
  }

  lemma InPhase(w: World, phases: map<string, Phase>, a: string)
    requires Inv(w, phases) && a in phases
    ensures In(w, a, phases[a])
  {
  }

  /** The arrival at the target of an account that has just left. */
  function Arrival(w: World, act: Action): Action
    requires act.self < |w.shards| && act.op.OpMig1? && 0 <= act.op.target
  {
    var a := act.op.address;
    Act(act.op.target, OpMig2(a, Get(w.shards[act.self], a).balance), Some(|w.net|))
  }

  predicate Departs(w: World, act: Action) {
    && act.self < |w.shards| && act.taken == None
    && act.op.OpMig1? && 0 <= act.op.target < |w.shards| && act.op.target != act.self
  }

  function Arrived(w: World, act: Action): World
    requires Departs(w, act)
  {
    Next(Next(w, act), Arrival(w, act))
  }

  /** What was on its way before still is, with the announcements of the new owner. */
  lemma ArrivalIs(w: World, act: Action)
    requires Departs(w, act) && In(w, act.op.address, Settled(act.self))
    ensures |Next(w, act).shards| == |w.shards| && Enabled(Next(w, act), Arrival(w, act))
    ensures
      var a, h, t, v := act.op.address, act.self, act.op.target, Arrived(w, act);
      && |v.shards| == |w.shards| && LiveOn(v, a, {h, t}) && BeforeOn(v, a, {h})
      && v.net == w.net + Announcements(a, t, |w.shards|)
  {
    var a, h, t, u := act.op.address, act.self, act.op.target, Next(w, act);
    assert u.net == w.net + [Mig2(a, Get(w.shards[h], a).balance, t)];
    assert Taken(u.net, |w.net|) == w.net;
    hide Taken;
  }

  lemma ArrivalKeeps(w: World, act: Action)
    requires Departs(w, act) && In(w, act.op.address, Settled(act.self))
    ensures Total(Next(w, act)) == Total(w) && Total(Arrived(w, act)) == Total(w)
  {
    hide Total, Worth;
    var a, h, t, n, u := act.op.address, act.self, act.op.target, |w.shards|, Next(w, act);
    TotalMoves(w, act);
    Mig1Keeps(h, n, w.shards[h], a, t);
    TotalMoves(u, Arrival(w, act));
    Mig2Keeps(t, n, u.shards[t], a, Get(w.shards[h], a).balance);
    assert u.net[|w.net|] == Mig2(a, Get(w.shards[h], a).balance, t);
  }

  /** Three entries in a row. */
  lemma ReachesThree(w: World, a1: Action, a2: Action, a3: Action)
    requires a1.self < |w.shards| && a2.self < |w.shards| && a3.self < |w.shards|
    requires Enabled(w, a1) && Enabled(Next(w, a1), a2) && Enabled(Next(Next(w, a1), a2), a3)
    ensures Reaches(w, [a1] + [a2] + [a3], Next(Next(Next(w, a1), a2), a3))
    ensures Reaches(w, [a1] + [a2], Next(Next(w, a1), a2))
  {
    assert Reaches(w, [], w);
    hide Enabled, Next, Reaches;
    ReachesMore(w, [], w, a1);
    assert [] + [a1] == [a1];
    ReachesMore(w, [a1], Next(w, a1), a2);
    ReachesMore(w, [a1] + [a2], Next(Next(w, a1), a2), a3);
  }

  /** A shard that takes an announcement of another owner: the account is not live there
      any more, and nothing else that was on its way has gone. */
  lemma Told(v: World, a: string, owner: int, d: nat) returns (act: Action)
    requires Announced(a, owner, d) in v.net && d < |v.shards| && owner != d
    ensures Enabled(v, act) && act.self == d && act.op == OpAnn(a, owner) && Total(Next(v, act)) == Total(v)
    ensures
      var x := Next(v, act);
      && |x.shards| == |v.shards| && !LiveAt(x, d, a)
      && (forall i :: 0 <= i < |v.shards| && i != d ==> x.shards[i] == v.shards[i])
      && (forall m :: m in v.net && m != Announced(a, owner, d) ==> m in x.net)
  {
    hide Total, Worth;
    var i: nat :| i < |v.net| && v.net[i] == Announced(a, owner, d);
    act := Act(d, OpAnn(a, owner), Some(i));
    TakenIs(v.net, i);
    TotalMoves(v, act);
    AnnKeeps(d, |v.shards|, v.shards[d], a, owner);
  }

  /** A shard where the account is not live takes a change of its balance. */
  lemma ChangedElsewhere(v: World, a: string, change: int, d: nat) returns (act: Action)
    requires Change(a, change, d) in v.net && d < |v.shards| && !LiveAt(v, d, a) && change != 0
    ensures Enabled(v, act) && act.self == d && Total(Next(v, act)) != Total(v)
  {
    hide Total, Worth;
    var i: nat :| i < |v.net| && v.net[i] == Change(a, change, d);
    act := Act(d, OpNs(a, change), Some(i));
    TotalMoves(v, act);
    NsKeeps(d, |v.shards|, v.shards[d], a, change);
  }

  /** A change on its way to an account that leaves can reach the shard too late. */
  lemma ChangeIsLost(w: World, act: Action, change: int)
    requires Departs(w, act) && In(w, act.op.address, Settled(act.self))
    requires Change(act.op.address, change, act.self) in w.net && change != 0
    ensures !Safe(Next(w, act), act.op.address)
  {
    hide Total, Enabled, LiveOn, BeforeOn, Reaches, Next, LiveAt;
    var a, h, t, v := act.op.address, act.self, act.op.target, Arrived(w, act);
    ArrivalIs(w, act);
    ArrivalKeeps(w, act);
    AnnouncementReaches(a, t, |w.shards|, h);
    var ann := Told(v, a, t, h);
    var ns := ChangedElsewhere(Next(v, ann), a, change, h);
    ReachesThree(Next(w, act), Arrival(w, act), ann, ns);
  }

  /** An announcement on its way to the target can take the account away from there again,
      where no balance of it has been recorded (the code then has nothing to subtract and
      stops). The account is then live nowhere. */
  lemma OwnerIsLost(w: World, act: Action, owner: int)
    requires Departs(w, act) && In(w, act.op.address, Settled(act.self))
    requires Announced(act.op.address, owner, act.op.target) in w.net && owner != act.op.target
    ensures !Safe(Next(w, act), act.op.address)
  {
    hide Total, Enabled, BeforeOn, Reaches, Next;
    var a, h, t, v := act.op.address, act.self, act.op.target, Arrived(w, act);
    ArrivalIs(w, act);
    AnnouncementReaches(a, t, |w.shards|, h);
    var away := Told(v, a, owner, t);
    var ann := Told(Next(v, away), a, t, h);
    ReachesThree(Next(w, act), Arrival(w, act), away, ann);
    var y := Next(Next(v, away), ann);
    forall i ensures !LiveAt(y, i, a) {
      if 0 <= i < |w.shards| && i != h && i != t { assert !Live(v.shards[i], i, a); }
    }
  }

  lemma SettledHome(w: World, a: string, home: int, h: int)
    requires In(w, a, Settled(home)) && LiveAt(w, h, a)
    ensures home == h
  {
  }

  lemma BlockedBy(w: World, a: string, h: int, t: int, m: Msg)
    requires In(w, a, Settled(h)) && m in w.net && About(m, a)
    requires !(m.Announced? && m.dest != t && !LiveAt(w, m.dest, a))
    ensures (m.Change? && m == Change(a, m.change, h) && m.change != 0)
         || (m.Announced? && m == Announced(a, m.owner, t) && m.owner != t)
  {
  }

  /** A settled account leaves safely exactly when the way is clear. */
  lemma LeavesSafely(w: World, act: Action, phases: map<string, Phase>)
    requires Inv(w, phases) && Possible(w, act) && act.op.OpMig1?
    requires act.op.address in phases && phases[act.op.address].Settled?
    ensures Total(Next(w, act)) == Total(w)
    ensures Safe(Next(w, act), act.op.address) <==> Clear(w, act.op.address, act.op.target)
  {
    hide Safe, Reaches, Next, Apply, Total;
    var a := act.op.address;
    InPhase(w, phases, a);
    SettledHome(w, a, phases[a].home, act.self);
    ArrivalKeeps(w, act);
    if Clear(w, a, act.op.target) {
      OwnPhaseKnown(w, act, phases);
      InvStep(w, act, phases);
      ClearIsSafe(Next(w, act), NextPhases(phases, act), a);
    } else {
      var m :| m in w.net && About(m, a) && !(m.Announced? && m.dest != act.op.target && !LiveAt(w, m.dest, a));
      BlockedBy(w, a, act.self, act.op.target, m);
      if m.Change? { ChangeIsLost(w, act, m.change); } else { OwnerIsLost(w, act, m.owner); }
    }
  }

  /** An account on the first of three shards, with a balance of five. */
  function ThreeShards(): World {
    var there := Local(map["a" := Acct(5, 0)], map[]);
    World([there, there, there], [])
  }

  /** The account after it has moved to the second, and the first has been told. */
  function MovedOnce(): World {
    World([Local(map["a" := Acct(5, 1)], map[]), Local(map["a" := Acct(5, 1)], map[]),
           Local(map["a" := Acct(5, 0)], map[])], [Announced("a", 1, 2)])
  }

  function OnItsWay(): World {
    var there := Local(map["a" := Acct(5, 0)], map[]);
    World([Local(map["a" := Acct(5, 0)], map["a" := 5]), there, there], [Mig2("a", 5, 1)])
  }

  function OnBoth(): World {
    World([Local(map["a" := Acct(5, 0)], map["a" := 5]), Local(map["a" := Acct(5, 1)], map[]),
           Local(map["a" := Acct(5, 0)], map[])], [Announced("a", 1, 0), Announced("a", 1, 2)])
  }

  lemma Arrives()
    ensures Next(OnItsWay(), Act(1, OpMig2("a", 5), Some(0))) == OnBoth()
  {
    assert Announcements("a", 1, 3) == OnBoth().net && Taken(OnItsWay().net, 0) == [];
    assert map["a" := Acct(5, 0)]["a" := Acct(5, 1)] == map["a" := Acct(5, 1)];
  }

  lemma IsTold()
    ensures Next(OnBoth(), Act(0, OpAnn("a", 1), Some(0))) == MovedOnce()
  {
    assert Taken(OnBoth().net, 0) == MovedOnce().net;
    var k := Apply(0, 3, OnBoth().shards[0], OpAnn("a", 1)).0;
    assert k.before == map[] && k.accts == map["a" := Acct(5, 1)];
  }

  lemma MovesOnce() returns (acts: seq<Action>)
    ensures Reaches(ThreeShards(), acts, MovedOnce())
  {
    var leave := Act(0, OpMig1("a", 1), None);
    var arrive, told := Act(1, OpMig2("a", 5), Some(0)), Act(0, OpAnn("a", 1), Some(0));
    assert Next(ThreeShards(), leave) == OnItsWay();
    hide Next, Reaches;
    Arrives();
    IsTold();
    ReachesThree(ThreeShards(), leave, arrive, told);
    acts := [leave] + [arrive] + [told];
  }

  /** While the third shard has not been told of the first move the account does not move
      on to it safely, though that move is over and no balance change is on its way. */
  lemma ThirdShardUntold() returns (acts: seq<Action>, act: Action)
    ensures Initial(ThreeShards(), map["a" := 0]) && Reaches(ThreeShards(), acts, MovedOnce())
    ensures In(MovedOnce(), "a", Settled(1)) && Possible(MovedOnce(), act) && act.op == OpMig1("a", 2)
    ensures !Safe(Next(MovedOnce(), act), "a")
  {
    hide Reaches, Safe;
    acts := MovesOnce();
    act := Act(1, OpMig1("a", 2), None);
    assert In(MovedOnce(), "a", Settled(1));
    OwnerIsLost(MovedOnce(), act, 1);
  }

  // ---------------------------------------------------------------------------
  // The total, account by account

  function BalanceAt(w: World, i: int, a: string): int {
    if 0 <= i < |w.shards| then Get(w.shards[i], a).balance else 0
  }

  /** The changes on their way to an account. */
  function ChangesFor(net: seq<Msg>, a: string): int {
    if net == [] then 0 else
    var m := net[|net| - 1];
    ChangesFor(net[..|net| - 1], a) + if m.Change? && m.address == a then m.change else 0
  }

  function Relayed(net: seq<Msg>): int {
    if net == [] then 0 else
    var m := net[|net| - 1];
    Relayed(net[..|net| - 1]) + if m.Relay? then m.value else 0
  }

  /** What an account really has: its balance at home and the changes on their way there;
      or its balance at the source until it has arrived at the target; or, while it is live
      on both, its balance at the target and what it has gained at the source since. */
  function Authoritative(w: World, a: string, p: Phase): int {
    match p
    case Settled(h) => BalanceAt(w, h, a) + ChangesFor(w.net, a)
    case Leaving(s, t) => BalanceAt(w, s, a)
    case Both(s, t) =>
      BalanceAt(w, t, a) + BalanceAt(w, s, a) - if 0 <= s < |w.shards| then BeforeOf(w.shards[s], a) else 0
  }

  ghost function AllAuthoritative(w: World, phases: map<string, Phase>): map<string, int> {
    map a | a in phases :: Authoritative(w, a, phases[a])
  }

  function Terms(m: map<string, int>, keys: set<string>): map<string, int> {
    map a | a in keys :: Term(m, a)
  }

  lemma {:induction false} SumOver(m: map<string, int>, keys: set<string>)
    requires forall a :: a in m ==> a in keys || m[a] == 0
    ensures Sum(m) == Sum(Terms(m, keys))
    decreases |keys|
  {
    if keys == {} {
      NoSum(m);
    } else {
      var a :| a in keys;
      var over, rest := Terms(m, keys), m - {a};
      SumOver(rest, keys - {a});
      AnyOrder(over, a);
      assert over - {a} == Terms(rest, keys - {a});
      SumUpdate(m, a, 0);
    }
  }

  lemma {:induction false} NoSum(m: map<string, int>)
    requires forall a :: a in m ==> m[a] == 0
    ensures Sum(m) == 0
    decreases |m|
  {
    if m != map[] {
      var a :| a in m;
      AnyOrder(m, a);
      NoSum(m - {a});
    }
  }

  lemma {:induction false} SumPlus(f: map<string, int>, g: map<string, int>, h: map<string, int>)
    requires f.Keys == g.Keys == h.Keys && forall a :: a in f ==> h[a] == f[a] + g[a]
    ensures Sum(h) == Sum(f) + Sum(g)
    decreases |f|
  {
    if f != map[] {
      var a :| a in f;
      AnyOrder(f, a);
      AnyOrder(g, a);
      AnyOrder(h, a);
      SumPlus(f - {a}, g - {a}, h - {a});
    }
  }

  /** What one account adds to the worth of a shard. */
  function Share(self: nat, l: Local, a: string): int {
    (if Live(l, self, a) then l.accts[a].balance else 0) - BeforeOf(l, a)
  }

  function Shares(self: nat, l: Local, keys: set<string>): map<string, int> {
    map a | a in keys :: Share(self, l, a)
  }

  lemma WorthByAccount(self: nat, l: Local, keys: set<string>)
    requires forall a :: Live(l, self, a) || a in l.before ==> a in keys
    ensures Worth(self, l) == Sum(Shares(self, l, keys))
  {
    hide Sum;
    var live := LiveTerms(self, l.accts);
    SumOver(live, keys);
    SumOver(l.before, keys);
    SumPlus(Shares(self, l, keys), Terms(l.before, keys),
            Terms(live, keys));
  }

  function ShareBelow(shards: seq<Local>, a: string, n: nat): int
    requires n <= |shards|
  {
    if n == 0 then 0 else ShareBelow(shards, a, n - 1) + Share(n - 1, shards[n - 1], a)
  }

  function SharesBelow(shards: seq<Local>, keys: set<string>, n: nat): map<string, int>
    requires n <= |shards|
  {
    map a | a in keys :: ShareBelow(shards, a, n)
  }

  lemma {:induction false} TotalWorthByAccount(shards: seq<Local>, keys: set<string>, n: nat)
    requires n <= |shards|
    requires forall i, a :: 0 <= i < n && (Live(shards[i], i, a) || a in shards[i].before) ==> a in keys
    ensures TotalWorth(shards, n) == Sum(SharesBelow(shards, keys, n))
  {
    hide Sum, Worth, Share;
    if n == 0 {
      NoSum(SharesBelow(shards, keys, 0));
    } else {
      TotalWorthByAccount(shards, keys, n - 1);
      WorthByAccount(n - 1, shards[n - 1], keys);
      SumPlus(SharesBelow(shards, keys, n - 1), Shares(n - 1, shards[n - 1], keys),
              SharesBelow(shards, keys, n));
    }
  }

  /** The value of the messages about one account. */
  function AboutValue(net: seq<Msg>, a: string): int {
    if net == [] then 0 else
    var m := net[|net| - 1];
    AboutValue(net[..|net| - 1], a) + if About(m, a) then Value(m) else 0
  }

  function AboutValues(net: seq<Msg>, keys: set<string>): map<string, int> {
    map a | a in keys :: AboutValue(net, a)
  }

  lemma {:induction false} NetByAccount(net: seq<Msg>, keys: set<string>)
    requires forall m, a :: m in net && About(m, a) ==> a in keys
    ensures NetValue(net) == Relayed(net) + Sum(AboutValues(net, keys))
  {
    hide Sum;
    var over := AboutValues(net, keys);
    if net == [] {
      NoSum(over);
    } else {
      var front, m := net[..|net| - 1], net[|net| - 1];
      NetByAccount(front, keys);
      var before := AboutValues(front, keys);
      if m.Relay? {
        assert over == before;
      } else {
        assert m in net && About(m, m.address);
        SumUpdate(before, m.address, AboutValue(net, m.address));
        assert over == before[m.address := AboutValue(net, m.address)];
      }
    }
  }

  lemma {:induction false} OnlyChanges(net: seq<Msg>, a: string)
    requires forall m :: m in net && About(m, a) ==> m.Announced? || m.Change?
    ensures AboutValue(net, a) == ChangesFor(net, a)
    ensures (forall m :: m in net && About(m, a) ==> m.Announced?) ==> ChangesFor(net, a) == 0
  {
    if net != [] {
      assert net[|net| - 1] in net;
      assert forall m :: m in net[..|net| - 1] ==> m in net;
      OnlyChanges(net[..|net| - 1], a);
    }
  }

  lemma {:induction false} OnlyMessage(net: seq<Msg>, a: string, k: Msg)
    requires forall m :: m in net && About(m, a) ==> m == k || m.Announced?
    requires multiset(net)[k] <= 1 && About(k, a) && !k.Announced?
    ensures AboutValue(net, a) == if multiset(net)[k] == 1 then Value(k) else 0
  {
    if net != [] {
      var front, m := net[..|net| - 1], net[|net| - 1];
      assert net == front + [m] && m in net;
      assert forall x :: x in front ==> x in net;
      assert multiset(net) == multiset(front) + multiset{m};
      OnlyMessage(front, a, k);
    }
  }

  /** An account has no share on shards where it is neither live nor left. */
  lemma {:induction false} ShareOf(shards: seq<Local>, a: string, n: nat, s: int, t: int)
    requires n <= |shards| && s != t
    requires forall i :: 0 <= i < n && i != s && i != t ==> !Live(shards[i], i, a) && a !in shards[i].before
    ensures ShareBelow(shards, a, n) == (if 0 <= s < n then Share(s, shards[s], a) else 0)
                                        + if 0 <= t < n then Share(t, shards[t], a) else 0
  {
    if n > 0 { ShareOf(shards, a, n - 1, s, t); }
  }

  lemma AuthoritativeIs(w: World, a: string, p: Phase)
    requires In(w, a, p)
    ensures ShareBelow(w.shards, a, |w.shards|) + AboutValue(w.net, a) == Authoritative(w, a, p)
  {
    match p {
      case Settled(h) =>
        ShareOf(w.shards, a, |w.shards|, h, -1);
        OnlyChanges(w.net, a);
      case Leaving(s, t) =>
        ShareOf(w.shards, a, |w.shards|, s, t);
        OnlyMessage(w.net, a, Mig2(a, BeforeOf(w.shards[s], a), t));
      case Both(s, t) =>
        ShareOf(w.shards, a, |w.shards|, s, t);
        OnlyChanges(w.net, a);
    }
  }

  /** The total is what the accounts really have, and the transfers on their way. */
  lemma TotalIsAuthoritative(w: World, phases: map<string, Phase>)
    requires Inv(w, phases)
    ensures Total(w) == Sum(AllAuthoritative(w, phases)) + Relayed(w.net)
  {
    hide Sum, In, ShareBelow, Authoritative, AboutValue;
    var n, keys := |w.shards|, phases.Keys;
    TotalWorthByAccount(w.shards, keys, n);
    NetByAccount(w.net, keys);
    forall a | a in phases
      ensures ShareBelow(w.shards, a, n) + AboutValue(w.net, a) == Authoritative(w, a, phases[a])
    {
      AuthoritativeIs(w, a, phases[a]);
    }
    SumPlus(SharesBelow(w.shards, keys, n), AboutValues(w.net, keys),
            AllAuthoritative(w, phases));
  }

  /** In every world that runs lead to, each account is in some phase, and what the
      accounts really have, with the transfers on their way, is what it was at first. */
  lemma BalancesAreConserved(w: World, homes: map<string, int>, acts: seq<Action>, u: World)
    returns (phases: map<string, Phase>)
    requires Initial(w, homes) && Reaches(w, acts, u)
    ensures phases.Keys == homes.Keys && Inv(u, phases)
    ensures
      var start := map a | a in homes :: Settled(homes[a]);
      Sum(AllAuthoritative(u, phases)) + Relayed(u.net) == Sum(AllAuthoritative(w, start)) + Relayed(w.net)
  {
    hide Sum, In, Reaches, Authoritative;
    var start := map a | a in homes :: Settled(homes[a]);
    InitialInv(w, homes, start);
    phases := InvHolds(w, start, acts, u);
    hide Inv, Initial;
    TotalIsAuthoritative(w, start);
    TotalIsAuthoritative(u, phases);
  }
}
