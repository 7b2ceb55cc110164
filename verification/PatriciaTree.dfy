/** The pure shape of the state trie of trie/: leaves, extensions and branches
    over nibble keys of one fixed length. A tree carries a tag at every node: the
    heap module tags nodes with the objects that hold them, and the canonical-form
    theorem forgets the tags and, because a branch is a map from nibble to child,
    the order in which a branch stores its children. */
module PatriciaTree {

  import opened Wrappers

  type Nibble = x: int | 0 <= x < 16
  type Byte = x: int | 0 <= x < 256
  type Value = seq<Byte>
  type Key = seq<Nibble>

  datatype Tree<N> =
    | Leaf(tag: N, key: Key, value: Value)
    | Ext(tag: N, key: Key, next: Tree<N>)
    | Branch(tag: N, children: map<Nibble, Tree<N>>)

  /** The value stored under a key; keys of any length may be asked for. */
  function Lookup<N>(t: Tree<N>, k: Key): Option<Value> {
    match t
    case Leaf(_, key, value) => if key == k then Some(value) else None
    case Ext(_, key, next) => if key <= k then Lookup(next, k[|key|..]) else None
    case Branch(_, children) =>
      if k != [] && k[0] in children then Lookup(children[k[0]], k[1..]) else None
  }

  /** The canonical shape for keys of n nibbles: extensions are non-empty and point
      to branches, and every branch keeps at least two children. */
  ghost predicate Canonical<N>(t: Tree<N>, n: nat) {
    match t
    case Leaf(_, key, _) => |key| == n
    case Ext(_, key, next) => 0 < |key| <= n && next.Branch? && Canonical(next, n - |key|)
    case Branch(_, children) =>
      && n > 0
      && (exists c, d :: c in children && d in children && c != d)
      && (forall c :: c in children ==> Canonical(children[c], n - 1))
  }

  /** The tree without its tags. */
  function Erase<N>(t: Tree<N>): Tree<()> {
    match t
    case Leaf(_, key, value) => Leaf((), key, value)
    case Ext(_, key, next) => Ext((), key, Erase(next))
    case Branch(_, children) => Branch((), map c | c in children :: Erase(children[c]))
  }

  /** A canonical tree stores keys of exactly its length. */
  lemma {:induction false} LookupLength<N>(t: Tree<N>, n: nat, k: Key)
    requires Canonical(t, n) && Lookup(t, k).Some?
    ensures |k| == n
  {
    match t
    case Leaf(_, _, _) =>
    case Ext(_, key, next) => LookupLength(next, n - |key|, k[|key|..]);
    case Branch(_, children) => LookupLength(children[k[0]], n - 1, k[1..]);
  }

  /** Some key the tree stores; no canonical tree is empty. */
  ghost function AnyKey<N>(t: Tree<N>, n: nat): (k: Key)
    requires Canonical(t, n)
    ensures Lookup(t, k).Some?
    decreases t
  {
    match t
    case Leaf(_, key, _) => key
    case Ext(_, key, next) =>
      var k := AnyKey(next, n - |key|);
      assert (key + k)[|key|..] == k;
      key + k
    case Branch(_, children) =>
      var c :| c in children;
      var k := AnyKey(children[c], n - 1);
      assert ([c] + k)[1..] == k;
      [c] + k
  }

  /** A branch stores two keys that differ in their first nibble. */
  lemma TwoKeys<N>(t: Tree<N>, n: nat) returns (k: Key, l: Key)
    requires Canonical(t, n) && t.Branch?
    ensures Lookup(t, k).Some? && Lookup(t, l).Some?
    ensures |k| > 0 && |l| > 0 && k[0] != l[0]
  {
    var c, d :| c in t.children && d in t.children && c != d;
    k := [c] + AnyKey(t.children[c], n - 1);
    l := [d] + AnyKey(t.children[d], n - 1);
    assert k[1..] == AnyKey(t.children[c], n - 1) && l[1..] == AnyKey(t.children[d], n - 1);
  }

  ghost predicate SameContents<N, M>(a: Tree<N>, b: Tree<M>) {
    forall k: Key :: Lookup(a, k) == Lookup(b, k)
  }

  /** What an extension stores below its own key. */
  lemma ExtBelow<N>(t: Tree<N>, k: Key)
    requires t.Ext?
    ensures Lookup(t, t.key + k) == Lookup(t.next, k)
  {
    assert (t.key + k)[|t.key|..] == k;
  }

  /** What a branch stores below one nibble. */
  lemma BranchBelow<N>(t: Tree<N>, c: Nibble, k: Key)
    requires t.Branch?
    ensures Lookup(t, [c] + k) == if c in t.children then Lookup(t.children[c], k) else None
  {
    assert ([c] + k)[1..] == k;
  }

  /** A leaf never holds what a taller tree holds: some key tells them apart. */
  lemma LeafIsNotTall<N, M>(a: Tree<N>, b: Tree<M>, n: nat) returns (w: Key)
    requires Canonical(a, n) && Canonical(b, n) && a.Leaf? && !b.Leaf?
    ensures Lookup(a, w) != Lookup(b, w)
  {
    var k, l;
    if b.Ext? {
      k, l := TwoKeys(b.next, n - |b.key|);
      ExtBelow(b, k);
      ExtBelow(b, l);
      assert (b.key + k)[|b.key|] != (b.key + l)[|b.key|];
      k, l := b.key + k, b.key + l;
    } else {
      k, l := TwoKeys(b, n);
    }
    w := if a.key == k then l else k;
  }

  /** All keys of an extension share its first nibble, those of a branch do not. */
  lemma ExtIsNotBranch<N, M>(a: Tree<N>, b: Tree<M>, n: nat) returns (w: Key)
    requires Canonical(a, n) && Canonical(b, n) && a.Ext? && b.Branch?
    ensures Lookup(a, w) != Lookup(b, w)
  {
    var k, l := TwoKeys(b, n);
    w := if k[0] == a.key[0] then l else k;
  }

  /** An extension that reaches beyond another one misses a key of it. */
  lemma ExtReaches<N, M>(a: Tree<N>, b: Tree<M>, n: nat) returns (w: Key)
    requires Canonical(a, n) && Canonical(b, n) && a.Ext? && b.Ext?
    ensures !(b.key <= a.key) ==> Lookup(a, w) != Lookup(b, w)
  {
    var k, l := TwoKeys(a.next, n - |a.key|);
    var p, q := a.key + k, a.key + l;
    ExtBelow(a, k);
    ExtBelow(a, l);
    assert p[|a.key|] != q[|a.key|];
    if b.key <= p && b.key <= q {
      assert |b.key| <= |a.key|;
      assert b.key == p[..|b.key|] == a.key[..|b.key|];
    }
    w := if b.key <= p then q else p;
  }

  /** Canonical form: two canonical trees that store the same key-value pairs are the
      same tree, whatever objects hold their nodes and however their branches store
      their children. */
  lemma {:induction false} CanonicalUnique<N, M>(a: Tree<N>, b: Tree<M>, n: nat)
    requires Canonical(a, n) && Canonical(b, n) && SameContents(a, b)
    ensures Erase(a) == Erase(b)
    decreases n
  {
    match (a, b)
    case (Leaf(_, key, value), Leaf(_, _, _)) =>
      assert Lookup(a, key) == Some(value) == Lookup(b, key);
    case (Leaf(_, _, _), _) =>
      var w := LeafIsNotTall(a, b, n);
    case (_, Leaf(_, _, _)) =>
      var w := LeafIsNotTall(b, a, n);
    case (Ext(_, _, _), Branch(_, _)) =>
      var w := ExtIsNotBranch(a, b, n);
    case (Branch(_, _), Ext(_, _, _)) =>
      var w := ExtIsNotBranch(b, a, n);
    case (Ext(_, p, an), Ext(_, q, bn)) =>
      var w := ExtReaches(a, b, n);
      var x := ExtReaches(b, a, n);
      assert p == q;
      forall k: Key ensures Lookup(an, k) == Lookup(bn, k) {
        ExtBelow(a, k);
        ExtBelow(b, k);
      }
      CanonicalUnique(an, bn, n - |p|);
    case (Branch(_, ac), Branch(_, bc)) =>
      SameNibbles(a, b, n);
      assert SameContents(b, a);
      SameNibbles(b, a, n);
      forall c | c in ac ensures c in bc && Erase(ac[c]) == Erase(bc[c]) {
        forall k: Key ensures Lookup(ac[c], k) == Lookup(bc[c], k) {
          BranchBelow(a, c, k);
          BranchBelow(b, c, k);
        }
        CanonicalUnique(ac[c], bc[c], n - 1);
      }
      assert Erase(a).children == Erase(b).children;
  }

  lemma SameNibbles<N, M>(a: Tree<N>, b: Tree<M>, n: nat)
    requires Canonical(a, n) && Canonical(b, n) && a.Branch? && b.Branch? && SameContents(a, b)
    ensures forall c :: c in a.children ==> c in b.children
  {
    forall c | c in a.children ensures c in b.children {
      var k := AnyKey(a.children[c], n - 1);
      BranchBelow(a, c, k);
      BranchBelow(b, c, k);
    }
  }

  // ---------------------------------------------------------------------------
  // Rewriting one spot of a tree

  /** A tree with a hole: the nodes above the spot a loop has descended to. */
  datatype Ctx<N> =
    | Top
    | InExt(tag: N, key: Key, up: Ctx<N>)
    | InBranch(tag: N, nibble: Nibble, rest: map<Nibble, Tree<N>>, up: Ctx<N>)

  ghost function Plug<N>(ctx: Ctx<N>, t: Tree<N>): Tree<N> {
    match ctx
    case Top => t
    case InExt(tag, key, up) => Plug(up, Ext(tag, key, t))
    case InBranch(tag, nibble, rest, up) => Plug(up, Branch(tag, rest[nibble := t]))
  }

  ghost function Path<N>(ctx: Ctx<N>): Key {
    match ctx
    case Top => []
    case InExt(_, key, up) => Path(up) + key
    case InBranch(_, nibble, _, up) => Path(up) + [nibble]
  }

  /** A key that does not lead to the hole does not see what fills it. */
  lemma {:induction false} PlugAside<N>(ctx: Ctx<N>, s: Tree<N>, t: Tree<N>, k: Key)
    requires forall l: Key :: k != Path(ctx) + l || Lookup(s, l) == Lookup(t, l)
    ensures Lookup(Plug(ctx, s), k) == Lookup(Plug(ctx, t), k)
  {
    match ctx
    case Top => assert k == Path(ctx) + k;
    case InExt(tag, key, up) =>
      forall l: Key | k == Path(up) + l
        ensures Lookup(Ext(tag, key, s), l) == Lookup(Ext(tag, key, t), l)
      {
        if key <= l { assert k == Path(ctx) + l[|key|..]; }
      }
      PlugAside(up, Ext(tag, key, s), Ext(tag, key, t), k);
    case InBranch(tag, nibble, rest, up) =>
      forall l: Key | k == Path(up) + l
        ensures Lookup(Branch(tag, rest[nibble := s]), l) == Lookup(Branch(tag, rest[nibble := t]), l)
      {
        if l != [] && l[0] == nibble { assert k == Path(ctx) + l[1..]; }
      }
      PlugAside(up, Branch(tag, rest[nibble := s]), Branch(tag, rest[nibble := t]), k);
  }

  lemma {:induction false} PlugBelow<N>(ctx: Ctx<N>, t: Tree<N>, l: Key)
    ensures Lookup(Plug(ctx, t), Path(ctx) + l) == Lookup(t, l)
  {
    match ctx
    case Top => assert Path(ctx) + l == l;
    case InExt(tag, key, up) =>
      assert Path(ctx) + l == Path(up) + (key + l);
      PlugBelow(up, Ext(tag, key, t), key + l);
      ExtBelow(Ext(tag, key, t), l);
    case InBranch(tag, nibble, rest, up) =>
      var b := Branch(tag, rest[nibble := t]);
      assert Path(ctx) + l == Path(up) + ([nibble] + l);
      PlugBelow(up, b, [nibble] + l);
      BranchBelow(b, nibble, l);
  }

  /** The tree s fills the hole of a canonical tree. */
  lemma {:induction false} HoleCanonical<N>(ctx: Ctx<N>, s: Tree<N>, n: nat)
    requires Canonical(Plug(ctx, s), n)
    ensures |Path(ctx)| <= n && Canonical(s, n - |Path(ctx)|)
    ensures ctx.InExt? ==> s.Branch?
  {
    match ctx
    case Top =>
    case InExt(tag, key, up) => HoleCanonical(up, Ext(tag, key, s), n);
    case InBranch(tag, nibble, rest, up) =>
      var b := Branch(tag, rest[nibble := s]);
      HoleCanonical(up, b, n);
      assert nibble in b.children && b.children[nibble] == s;
  }

  /** Filling the hole with another canonical tree keeps the whole canonical. */
  lemma {:induction false} PlugCanonical<N>(ctx: Ctx<N>, s: Tree<N>, t: Tree<N>, n: nat)
    requires Canonical(Plug(ctx, s), n)
    requires |Path(ctx)| <= n && Canonical(t, n - |Path(ctx)|)
    requires s.Branch? ==> t.Branch?
    ensures Canonical(Plug(ctx, t), n)
  {
    HoleCanonical(ctx, s, n);
    match ctx
    case Top =>
    case InExt(tag, key, up) =>
      HoleCanonical(up, Ext(tag, key, s), n);
      PlugCanonical(up, Ext(tag, key, s), Ext(tag, key, t), n);
    case InBranch(tag, nibble, rest, up) =>
      var b, b' := Branch(tag, rest[nibble := s]), Branch(tag, rest[nibble := t]);
      HoleCanonical(up, b, n);
      assert b'.children.Keys == b.children.Keys;
      forall c | c in b'.children ensures Canonical(b'.children[c], n - |Path(up)| - 1) {
        assert c in b.children;
      }
      PlugCanonical(up, b, b', n);
  }

  /** t stores what s stores, except that key k now holds v. */
  ghost predicate Updated<N>(s: Tree<N>, t: Tree<N>, k: Key, v: Value) {
    forall l: Key :: Lookup(t, l) == if l == k then Some(v) else Lookup(s, l)
  }

  /** An update below the hole is an update of the whole tree. */
  lemma PlugUpdated<N>(ctx: Ctx<N>, s: Tree<N>, t: Tree<N>, k: Key, v: Value)
    requires Updated(s, t, k, v)
    ensures Updated(Plug(ctx, s), Plug(ctx, t), Path(ctx) + k, v)
  {
    forall l: Key
      ensures Lookup(Plug(ctx, t), l) ==
              if l == Path(ctx) + k then Some(v) else Lookup(Plug(ctx, s), l)
    {
      if l == Path(ctx) + k {
        PlugBelow(ctx, t, k);
      } else {
        PlugAside(ctx, s, t, l);
      }
    }
  }

  /** What is left of s when key k is taken out; None is the empty tree. */
  ghost predicate Removed<N>(s: Tree<N>, r: Option<Tree<N>>, k: Key) {
    forall l: Key ::
      (if r.Some? then Lookup(r.value, l) else None) == if l == k then None else Lookup(s, l)
  }

  /** t stores exactly what child stores, below the given path. */
  ghost predicate Under<N>(t: Tree<N>, path: Key, child: Tree<N>) {
    forall l: Key :: Lookup(t, l) == if path <= l then Lookup(child, l[|path|..]) else None
  }

  /** A branch at node n, or an extension of n to a branch held by another node. */
  ghost function Wrapped<N>(n: N, prefix: Key, b: Tree<N>): Tree<N>
    requires b.Branch?
  {
    if prefix == [] then Branch(n, b.children) else Ext(n, prefix, b)
  }

  /** Splitting a leaf or an extension where a new key leaves its path. */
  lemma SplitUpdated<N>(s: Tree<N>, path: Key, child: Tree<N>, n: N, b: N, leaf: Tree<N>, k: Key,
                        m: nat, len: nat)
    requires m < |path| && m < |k| == len && path[..m] == k[..m] && path[m] != k[m]
    requires Under(s, path[..m + 1], child) && Canonical(child, len - m - 1)
    requires leaf.Leaf? && leaf.key == k[m + 1..]
    ensures var t := Wrapped(n, path[..m], Branch(b, map[path[m] := child, k[m] := leaf]));
            Canonical(t, len) && Updated(s, t, k, leaf.value)
  {
    var kids := map[path[m] := child, k[m] := leaf];
    assert path[m] in kids && k[m] in kids;
    assert Canonical(Branch(b, kids), len - m) && Canonical(Branch(n, kids), len - m);
    var t := Wrapped(n, path[..m], Branch(b, kids));
    forall l: Key ensures Lookup(t, l) == if l == k then Some(leaf.value) else Lookup(s, l) {
      WrappedLookup(n, path[..m], Branch(b, kids), l);
      SplitLookup(s, path, child, b, leaf, k, m, l);
    }
  }

  lemma WrappedLookup<N>(n: N, prefix: Key, b: Tree<N>, l: Key)
    requires b.Branch?
    ensures Lookup(Wrapped(n, prefix, b), l) ==
            if prefix <= l then Lookup(b, l[|prefix|..]) else None
  {
    if prefix == [] { assert l[|prefix|..] == l; }
  }

  lemma SplitLookup<N>(s: Tree<N>, path: Key, child: Tree<N>, b: N, leaf: Tree<N>, k: Key, m: nat, l: Key)
    requires m < |path| && m < |k| && path[..m] == k[..m] && path[m] != k[m]
    requires Under(s, path[..m + 1], child)
    requires leaf.Leaf? && leaf.key == k[m + 1..]
    ensures (if path[..m] <= l then Lookup(Branch(b, map[path[m] := child, k[m] := leaf]), l[m..]) else None) ==
            if l == k then Some(leaf.value) else Lookup(s, l)
  {
    hide Canonical;
    assert Lookup(s, l) == if path[..m + 1] <= l then Lookup(child, l[m + 1..]) else None;
    if path[..m] <= l && m < |l| {
      assert l[m..][0] == l[m] && l[m..][1..] == l[m + 1..];
      assert path[..m + 1] <= l <==> l[m] == path[m];
      if l[m] == k[m] {
        assert l == l[..m] + [l[m]] + l[m + 1..] && k == k[..m] + [k[m]] + k[m + 1..];
      }
    } else {
      assert l != k;
    }
  }

  /** A leaf seen from one of its nibbles on. */
  lemma LeafUnder<N>(t: Tree<N>, m: nat, n: N)
    requires t.Leaf? && m < |t.key|
    ensures Under(t, t.key[..m + 1], Leaf(n, t.key[m + 1..], t.value))
  {
  }

  /** The rest of an extension after one of its nibbles: its branch when nothing is
      left of its key. */
  ghost function ExtRest<N>(t: Tree<N>, m: nat, n: N): Tree<N>
    requires t.Ext? && m < |t.key|
  {
    if m + 1 == |t.key| then t.next else Ext(n, t.key[m + 1..], t.next)
  }

  lemma ExtUnder<N>(t: Tree<N>, m: nat, n: N, len: nat)
    requires t.Ext? && m < |t.key| && Canonical(t, len)
    ensures Under(t, t.key[..m + 1], ExtRest(t, m, n)) && Canonical(ExtRest(t, m, n), len - m - 1)
  {
  }

  /** A branch that gains a leaf below a vacant nibble. */
  lemma BranchGrows<N>(t: Tree<N>, c: Nibble, leaf: Tree<N>, len: nat)
    requires t.Branch? && Canonical(t, len) && c !in t.children && leaf.Leaf? && |leaf.key| == len - 1
    ensures var r := Branch(t.tag, t.children[c := leaf]);
            Canonical(r, len) && Updated(t, r, [c] + leaf.key, leaf.value)
  {
    var r := Branch(t.tag, t.children[c := leaf]);
    forall d | d in t.children ensures d in r.children {}
    forall l: Key ensures Lookup(r, l) == if l == [c] + leaf.key then Some(leaf.value) else Lookup(t, l) {
      if l != [] { assert l == [l[0]] + l[1..]; }
    }
  }

  /** The node that absorbs a path and the tree below it: a leaf or an extension
      grows, and a branch is put behind an extension. */
  ghost function Joined<N>(n: N, path: Key, t: Tree<N>): Tree<N> {
    match t
    case Leaf(_, key, value) => Leaf(n, path + key, value)
    case Ext(_, key, next) => Ext(n, path + key, next)
    case Branch(_, _) => Ext(n, path, t)
  }

  lemma JoinedUnder<N>(n: N, path: Key, t: Tree<N>, len: nat)
    requires 0 < |path| <= len && Canonical(t, len - |path|)
    ensures Canonical(Joined(n, path, t), len) && Under(Joined(n, path, t), path, t)
  {
  }

  /** Deleting below an extension and merging what comes back. */
  lemma ExtRemoved<N>(s: Tree<N>, r: Tree<N>, k: Key, len: nat)
    requires Canonical(s, len) && s.Ext? && Lookup(s, k).Some?
    requires Canonical(r, len - |s.key|) && Removed(s.next, Some(r), k[|s.key|..])
    ensures Canonical(Joined(s.tag, s.key, r), len)
    ensures Removed(s, Some(Joined(s.tag, s.key, r)), k)
  {
    JoinedUnder(s.tag, s.key, r, len);
    forall l: Key
      ensures Lookup(Joined(s.tag, s.key, r), l) == if l == k then None else Lookup(s, l)
    {
      if s.key <= l && l[|s.key|..] == k[|s.key|..] {
        assert l == s.key + l[|s.key|..] && k == s.key + k[|s.key|..];
      }
    }
  }

  /** A branch whose child below c has been replaced by what deletion left of it. */
  lemma BranchRemoved<N>(s: Tree<N>, r: Tree<N>, k: Key, len: nat)
    requires Canonical(s, len) && s.Branch? && Lookup(s, k).Some?
    requires Canonical(r, len - 1) && Removed(s.children[k[0]], Some(r), k[1..])
    ensures var t := Branch(s.tag, s.children[k[0] := r]);
            Canonical(t, len) && Removed(s, Some(t), k)
  {
    var t := Branch(s.tag, s.children[k[0] := r]);
    assert t.children.Keys == s.children.Keys;
    assert k == [k[0]] + k[1..];
    forall l: Key ensures Lookup(t, l) == if l == k then None else Lookup(s, l) {
      if l != [] { assert l == [l[0]] + l[1..]; }
    }
  }

  /** A branch that loses a leaf. */
  lemma LeafRemoved<N>(s: Tree<N>, k: Key, len: nat)
    requires Canonical(s, len) && s.Branch? && Lookup(s, k).Some? && s.children[k[0]].Leaf?
    ensures Removed(s, Some(Branch(s.tag, s.children - {k[0]})), k)
  {
  }

  /** The branch left with a single child merges with it. */
  lemma SoleChildRemoved<N>(s: Tree<N>, k: Key, c: Nibble, len: nat)
    requires Canonical(s, len) && s.Branch? && Lookup(s, k).Some? && s.children[k[0]].Leaf?
    requires c in s.children && c != k[0]
    requires forall d :: d in s.children ==> d == c || d == k[0]
    ensures var t := Joined(s.tag, [c], s.children[c]);
            Canonical(t, len) && Removed(s, Some(t), k)
  {
  }

  // ---------------------------------------------------------------------------
  // Tags: each node of the tree is held by an object of its own

  ghost function Tags<N>(t: Tree<N>): set<N> {
    match t
    case Leaf(n, _, _) => {n}
    case Ext(n, _, next) => {n} + Tags(next)
    case Branch(n, children) => {n} + set c, m | c in children && m in Tags(children[c]) :: m
  }

  ghost predicate Distinct<N>(t: Tree<N>) {
    match t
    case Leaf(_, _, _) => true
    case Ext(n, _, next) => n !in Tags(next) && Distinct(next)
    case Branch(n, children) =>
      && (forall c :: c in children ==> n !in Tags(children[c]) && Distinct(children[c]))
      && (forall c, d :: c in children && d in children && c != d ==>
            Tags(children[c]) !! Tags(children[d]))
  }

  ghost function CtxTags<N>(ctx: Ctx<N>): set<N> {
    match ctx
    case Top => {}
    case InExt(n, _, up) => {n} + CtxTags(up)
    case InBranch(n, nibble, rest, up) =>
      {n} + CtxTags(up) + set c, m | c in rest && c != nibble && m in Tags(rest[c]) :: m
  }

  lemma TagInTags<N>(t: Tree<N>)
    ensures t.tag in Tags(t)
  {
  }

  /** The objects of a tree are those above the hole and those that fill it. */
  lemma {:induction false} PlugTags<N>(ctx: Ctx<N>, s: Tree<N>)
    ensures Tags(Plug(ctx, s)) == CtxTags(ctx) + Tags(s)
  {
    match ctx
    case Top =>
    case InExt(n, key, up) => PlugTags(up, Ext(n, key, s));
    case InBranch(n, nibble, rest, up) =>
      var b := Branch(n, rest[nibble := s]);
      PlugTags(up, b);
      assert nibble in b.children && b.children[nibble] == s;
      forall m | m in CtxTags(ctx) ensures m in CtxTags(up) || m in Tags(b) {
        if m != n && m !in CtxTags(up) {
          var c :| c in rest && c != nibble && m in Tags(rest[c]);
          assert c in b.children && b.children[c] == rest[c];
        }
      }
  }

  lemma {:induction false} HoleDistinct<N>(ctx: Ctx<N>, s: Tree<N>)
    requires Distinct(Plug(ctx, s))
    ensures Distinct(s) && CtxTags(ctx) !! Tags(s)
  {
    match ctx
    case Top =>
    case InExt(n, key, up) => HoleDistinct(up, Ext(n, key, s));
    case InBranch(n, nibble, rest, up) =>
      var b := Branch(n, rest[nibble := s]);
      HoleDistinct(up, b);
      assert nibble in b.children && b.children[nibble] == s;
      forall m | m in CtxTags(ctx) ensures m !in Tags(s) {
        if c :| c in rest && c != nibble && m in Tags(rest[c]) {
          assert c in b.children && b.children[c] == rest[c];
        } else {
          assert m == n || m in CtxTags(up);
        }
      }
  }

  lemma {:induction false} PlugDistinct<N>(ctx: Ctx<N>, s: Tree<N>, t: Tree<N>)
    requires Distinct(Plug(ctx, s)) && Distinct(t) && CtxTags(ctx) !! Tags(t)
    ensures Distinct(Plug(ctx, t))
  {
    match ctx
    case Top =>
    case InExt(n, key, up) =>
      HoleDistinct(up, Ext(n, key, s));
      PlugDistinct(up, Ext(n, key, s), Ext(n, key, t));
    case InBranch(n, nibble, rest, up) =>
      var b, b' := Branch(n, rest[nibble := s]), Branch(n, rest[nibble := t]);
      HoleDistinct(up, b);
      forall c | c in b'.children && c != nibble
        ensures c in b.children && c in rest && b.children[c] == b'.children[c] == rest[c]
      {
      }
      assert Tags(b') <= Tags(b) + Tags(t);
      PlugDistinct(up, b, b');
  }
}
