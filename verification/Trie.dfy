/** The heap-allocated trie of trie/: nodes that Put overwrites in place and Delete
    collapses and merges in place. A ghost tree of the node objects says which
    canonical tree the objects hold. */
module Trie {
  import opened PatriciaTree
  import opened Wrappers

  datatype Flag = LeafFlag | BranchFlag | ExtensionFlag

  // ---------------------------------------------------------------------------
  // Nibbles

  function High(b: Byte): Nibble { b / 16 }
  function Low(b: Byte): Nibble { b % 16 }

  /** One byte becomes two nibbles, high half first. */
  function Nibbles(bs: seq<Byte>): Key {
    if bs == [] then [] else Nibbles(bs[..|bs| - 1]) + [High(bs[|bs| - 1]), Low(bs[|bs| - 1])]
  }

  method FromBytes(bs: seq<Byte>) returns (ns: Key)
    ensures ns == Nibbles(bs)
  {
    ns := [];
    for i := 0 to |bs|
      invariant ns == Nibbles(bs[..i])
    {
      ns := ns + [High(bs[i]), Low(bs[i])];
      assert bs[..i + 1][..i] == bs[..i];
    }
    assert bs[..|bs|] == bs;
  }

  lemma {:induction false} NibblesLength(bs: seq<Byte>)
    ensures |Nibbles(bs)| == 2 * |bs|
  {
    if bs != [] { NibblesLength(bs[..|bs| - 1]); }
  }

  /** Byte keys and nibble keys of even length correspond one to one. */
  lemma {:induction false} NibblesInjective(a: seq<Byte>, b: seq<Byte>)
    requires Nibbles(a) == Nibbles(b)
    ensures a == b
  {
    NibblesLength(a);
    NibblesLength(b);
    if a != [] {
      var m := |a| - 1;
      var na, nb := Nibbles(a), Nibbles(b);
      assert na[2 * m] == nb[2 * m] && na[2 * m + 1] == nb[2 * m + 1]
      by { NibblesLength(a[..m]); NibblesLength(b[..m]); }
      NibblesLength(a[..m]);
      NibblesLength(b[..m]);
      assert High(a[m]) == na[2 * m] && Low(a[m]) == na[2 * m + 1];
      assert High(b[m]) == nb[2 * m] && Low(b[m]) == nb[2 * m + 1];
      assert a[m] == 16 * High(a[m]) + Low(a[m]) && b[m] == 16 * High(b[m]) + Low(b[m]);
      assert Nibbles(a[..m]) == na[..2 * m] == nb[..2 * m] == Nibbles(b[..m]);
      NibblesInjective(a[..m], b[..m]);
      assert a == a[..m] + [a[m]] && b == b[..m] + [b[m]];
    }
  }

  lemma {:induction false} NibblesSurjective(k: Key) returns (bs: seq<Byte>)
    requires |k| % 2 == 0
    ensures Nibbles(bs) == k
  {
    if k == [] {
      bs := [];
    } else {
      var m := |k| - 2;
      var front := NibblesSurjective(k[..m]);
      var last: Byte := 16 * (k[m] as int) + k[m + 1];
      bs := front + [last];
      assert bs[..|bs| - 1] == front;
      assert High(last) == k[m] && Low(last) == k[m + 1];
      assert k == k[..m] + [k[m], k[m + 1]];
    }
  }

  /** The length of the longest common prefix. */
  method PrefixMatchedLen(a: Key, b: Key) returns (matched: nat)
    ensures matched <= |a| && matched <= |b| && a[..matched] == b[..matched]
    ensures matched < |a| && matched < |b| ==> a[matched] != b[matched]
  {
    matched := 0;
    while matched < |a| && matched < |b|
      invariant matched <= |a| && matched <= |b| && a[..matched] == b[..matched]
    {
      if a[matched] == b[matched] {
        matched := matched + 1;
      } else {
        break;
      }
    }
  }

  // ---------------------------------------------------------------------------
  // What the objects hold

  /** The entries other than -1 give these children, and are a bijection onto the list
      of branches: they are distinct slots of it, and as many. */
  ghost predicate Indexed(index: seq<int>, branches: seq<Node>, kids: map<Nibble, Node>) {
    && |index| == 16
    && (forall c: Nibble :: c in kids <==> index[c] != -1)
    && (forall c :: c in kids ==> 0 <= index[c] < |branches| && branches[index[c]] == kids[c])
    && (forall c, d :: c in kids && d in kids && index[c] == index[d] ==> c == d)
    && |branches| == |kids|
  }

  /** Node n is a branch with exactly these children. */
  ghost predicate Holds(n: Node, kids: map<Nibble, Node>)
    reads n
  {
    n.flag == BranchFlag && n.value == None && Indexed(n.index, n.branches, kids)
  }

  ghost function Kids(children: map<Nibble, Tree<Node>>): map<Nibble, Node> {
    map c | c in children :: children[c].tag
  }

  /** The objects hold this tree. */
  ghost predicate Rep(t: Tree<Node>)
    reads Tags(t)
  {
    match t
    case Leaf(n, key, value) => n.flag == LeafFlag && n.keySlice == key && n.value == Some(value)
    case Ext(n, key, next) =>
      n.flag == ExtensionFlag && n.keySlice == key && n.next == next.tag && Rep(next)
    case Branch(n, children) =>
      Holds(n, Kids(children)) && forall c :: c in children ==> Rep(children[c])
  }

  /** The objects above the hole hold the context, and point to the object hole. */
  ghost predicate RepCtx(ctx: Ctx<Node>, hole: Node)
    reads CtxTags(ctx)
  {
    match ctx
    case Top => true
    case InExt(n, key, up) =>
      n.flag == ExtensionFlag && n.keySlice == key && n.next == hole && RepCtx(up, n)
    case InBranch(n, nibble, rest, up) =>
      && Holds(n, Kids(rest)[nibble := hole])
      && (forall c :: c in rest && c != nibble ==> Rep(rest[c]))
      && RepCtx(up, n)
  }

  ghost function KidTags(children: map<Nibble, Tree<Node>>): set<Node> {
    set c, m | c in children && m in Tags(children[c]) :: m
  }

  ghost predicate RepKids(children: map<Nibble, Tree<Node>>)
    reads KidTags(children)
  {
    forall c :: c in children ==> Rep(children[c])
  }

  lemma {:induction false} RepPlug(ctx: Ctx<Node>, t: Tree<Node>)
    ensures Rep(Plug(ctx, t)) <==> RepCtx(ctx, t.tag) && Rep(t)
  {
    match ctx
    case Top =>
    case InExt(n, key, up) => RepPlug(up, Ext(n, key, t));
    case InBranch(n, nibble, rest, up) =>
      var b := Branch(n, rest[nibble := t]);
      RepPlug(up, b);
      assert Kids(b.children) == Kids(rest)[nibble := t.tag];
      assert nibble in b.children && b.children[nibble] == t;
      assert Rep(b) <==> Holds(n, Kids(b.children)) && Rep(t)
                         && forall c :: c in rest && c != nibble ==> Rep(rest[c]) by {
        if Rep(b) {
          forall c | c in rest && c != nibble ensures Rep(rest[c]) {
            assert c in b.children && b.children[c] == rest[c];
          }
        }
      }
  }
  /** What comes of adding a child: NoSlot stands for an index out of range. */
  datatype Attached = Done | NoBranch | NoSlot

  class Node {
    var flag: Flag
    var next: Node?
    var keySlice: Key
    var value: Option<Value>
    var index: seq<int>
    var branches: seq<Node>

    constructor NewLeaf(nibbles: Key, v: Option<Value>)
      ensures flag == LeafFlag && keySlice == nibbles && value == v
    {
      flag, next, keySlice, value, index, branches :=
        LeafFlag, null, nibbles, v, seq(16, i => 0), [];
    }

    constructor NewExtension(nibbles: Key, child: Node)
      ensures flag == ExtensionFlag && keySlice == nibbles && next == child
    {
      flag, next, keySlice, value, index, branches :=
        ExtensionFlag, child, nibbles, None, seq(16, i => 0), [];
    }

    constructor NewBranch()
      ensures Holds(this, map[]) && Ranked(index, {})
    {
      flag, next, keySlice, value, index, branches :=
        BranchFlag, null, [], None, seq(16, i => -1), [];
    }

    /** Shifts up by one the slots of the entries above a nibble and counts them. */
    method MakeRoom(nibble: Nibble, ghost s: set<Nibble>) returns (count: nat)
      requires |index| == 16 && index[nibble] == -1
      requires forall c: Nibble :: c in s <==> index[c] != -1
      modifies this`index
      ensures count == |Between(s, nibble, 16)|
      ensures |index| == 16 && index[nibble] == -1
      ensures Shifted(old(index), index[nibble := 0], nibble, 0)
    {
      count := 0;
      var i := nibble + 1;
      while i < 16
        invariant nibble < i <= 16 && |index| == 16
        invariant count == |Between(s, nibble, i)|
        invariant forall c: Nibble ::
                    index[c] == (if nibble < c < i && old(index)[c] != -1 then old(index)[c] + 1
                                 else old(index)[c])
      {
        assert Between(s, nibble, i + 1) == Between(s, nibble, i) + if i in s then {i} else {};
        if index[i] != -1 {
          index := index[i := index[i] + 1];
          count := count + 1;
        }
        i := i + 1;
      }
    }

    /** Adds a child to a branch. Below a vacant nibble the entries above shift up by one to
        make room; the children stay indexed exactly if those entries were the last ones
        stored, as they are when the branch stores its children in nibble order. An occupied
        nibble is taken for a slot of the branches: the child of the nibble is replaced only
        if it sits in that slot. */
    method SetBranch(nibble: Nibble, node: Node, ghost kids: map<Nibble, Node>) returns (outcome: Attached)
      requires flag == BranchFlag ==> Indexed(index, branches, kids)
      modifies this`index, this`branches
      ensures outcome == if flag != BranchFlag then NoBranch
                         else if nibble in kids && nibble >= |old(branches)| then NoSlot else Done
      ensures outcome != Done ==> unchanged(this)
      ensures outcome == Done && nibble in kids ==>
                index == old(index) && branches == old(branches)[nibble := node]
                && (Indexed(index, branches, kids[nibble := node]) <==>
                    index[nibble] == nibble || (old(branches)[nibble] == node == kids[nibble]))
      ensures outcome == Done && nibble !in kids ==>
                var front := |old(branches)| - |Between(kids.Keys, nibble, 16)|;
                && 0 <= front && branches == Inserted(old(branches), node, front)
                && Shifted(old(index), index, nibble, front)
                && (Indexed(index, branches, kids[nibble := node]) <==>
                    LastAbove(old(index), kids.Keys, nibble, front))
      ensures outcome == Done && nibble !in kids && Ranked(old(index), kids.Keys) ==>
                Indexed(index, branches, kids[nibble := node]) && Ranked(index, kids.Keys + {nibble})
    {
      hide *;
      if flag != BranchFlag {
        return NoBranch;
      }
      IndexedParts(index, branches, kids);
      ghost var was, slots := index, branches;
      if index[nibble] != -1 {
        if nibble >= |branches| {
          return NoSlot;
        }
        branches := branches[nibble := node];
        SlotReplaced(was, slots, kids, nibble, node);
        return Done;
      }
      var count := MakeRoom(nibble, kids.Keys);
      BetweenSize(kids, nibble);
      var front := |branches| - count;
      ShiftedAt(was, index, nibble, front);
      index := index[nibble := front];
      branches := branches[..front] + [node] + branches[front..];
      InsertedIs(slots, node, front);
      InsertIndexed(was, slots, kids, nibble, node, front, index);
      if Ranked(was, kids.Keys) {
        InsertRanked(was, kids.Keys, nibble, front, index);
      }
      return Done;
    }

    /** Copies all fields of another node over this one; nodes above keep pointing here. */
    method Overwrite(o: Node)
      modifies this
      ensures flag == o.flag && next == o.next && keySlice == o.keySlice && value == o.value
      ensures index == o.index && branches == o.branches
    {
      flag, next, keySlice, value, index, branches :=
        o.flag, o.next, o.keySlice, o.value, o.index, o.branches;
    }

    /** A new branch with two children. */
    static method Pair(c: Nibble, child: Node, d: Nibble, leaf: Node) returns (branch: Node)
      requires c != d
      ensures fresh(branch) && Holds(branch, map[c := child, d := leaf])
    {
      hide *;
      ghost var none: map<Nibble, Node> := map[];
      assert none.Keys == {} && map[c := child].Keys == none.Keys + {c};
      branch := new Node.NewBranch();
      HoldsParts(branch, none);
      var first := branch.SetBranch(c, child, none);
      assert none[c := child] == map[c := child];
      var second := branch.SetBranch(d, leaf, map[c := child]);
      HoldsIntro(branch, map[c := child, d := leaf]);
    }

    /** Makes this node the split point of two paths: a branch, or an extension to one. */
    method Split(prefix: Key, c: Nibble, child: Node, d: Nibble, leaf: Node,
                 ghost ct: Tree<Node>, ghost lt: Tree<Node>) returns (ghost b: Node)
      requires c != d && ct.tag == child && lt.tag == leaf
      requires Rep(ct) && Rep(lt) && Distinct(ct) && Distinct(lt) && Tags(ct) !! Tags(lt)
      requires this !in Tags(ct) && this !in Tags(lt)
      modifies this
      ensures var r := Wrapped(this, prefix, Branch(b, map[c := ct, d := lt]));
              r.tag == this && Rep(r) && Distinct(r) && Tags(r) <= {this, b} + Tags(ct) + Tags(lt)
      ensures fresh(b)
    {
      hide *;
      TagsAllocated(ct);
      TagsAllocated(lt);
      var branch := Pair(c, child, d, leaf);
      b := branch;
      if |prefix| > 0 {
        var ext := new Node.NewExtension(prefix, branch);
        Overwrite(ext);
      } else {
        Overwrite(branch);
        SameHolds(branch, this, map[c := child, d := leaf]);
      }
      WrappedHeld(this, prefix, b, c, ct, d, lt);
    }

    /** Put at a leaf: replace its value, or split where the keys part. */
    method PutAtLeaf(nibbles: Key, v: Value, ghost t: Tree<Node>) returns (ghost r: Tree<Node>)
      requires t.Leaf? && t.tag == this && Rep(t) && |t.key| == |nibbles|
      modifies this
      ensures r.tag == this && Rep(r) && Distinct(r)
      ensures forall o :: o in Tags(r) && o !in Tags(t) ==> fresh(o)
      ensures Canonical(r, |nibbles|) && Updated(t, r, nibbles, v)
    {
      hide *;
      LeafFields(t);
      TagInTags(t);
      var matched := PrefixMatchedLen(keySlice, nibbles);
      if matched == |nibbles| && matched == |keySlice| {
        var leaf := new Node.NewLeaf(keySlice, Some(v));
        Overwrite(leaf);
        r := Leaf(this, t.key, v);
        assert t.key == nibbles by { assert t.key[..matched] == t.key && nibbles[..matched] == nibbles; }
        SameKeyLeaf(t, v);
        return;
      }
      // Keys have one length, so both go on past the mismatch.
      var oldLeaf := new Node.NewLeaf(keySlice[matched + 1..], value);
      var newLeaf := new Node.NewLeaf(nibbles[matched + 1..], Some(v));
      ghost var ct := Leaf(oldLeaf, t.key[matched + 1..], t.value);
      ghost var lt := Leaf(newLeaf, nibbles[matched + 1..], v);
      LeafHeld(oldLeaf, ct.key, ct.value);
      LeafHeld(newLeaf, lt.key, lt.value);
      ghost var b := Split(keySlice[..matched], keySlice[matched], oldLeaf, nibbles[matched], newLeaf, ct, lt);
      r := Wrapped(this, t.key[..matched], Branch(b, map[t.key[matched] := ct, nibbles[matched] := lt]));
      LeafUnder(t, matched, oldLeaf);
      LeafCanonical(ct);
      SplitUpdated(t, t.key, ct, this, b, lt, nibbles, matched, |nibbles|);
    }

    /** Put at a branch with no child for the next nibble: a new leaf is appended. */
    method PutAtBranch(c: Nibble, nibbles: Key, v: Value, ghost t: Tree<Node>, ghost len: nat)
      returns (ghost r: Tree<Node>)
      requires t.Branch? && t.tag == this && Rep(t) && Distinct(t) && Canonical(t, len)
      requires c !in t.children && |nibbles| == len - 1
      modifies this
      ensures r.Branch? && r.tag == this && Rep(r) && Distinct(r)
      ensures forall o :: o in Tags(r) && o !in Tags(t) ==> fresh(o)
      ensures Canonical(r, len) && Updated(t, r, [c] + nibbles, v)
    {
      hide *;
      BranchParts(t);
      TagsAllocated(t);
      var leaf := new Node.NewLeaf(nibbles, Some(v));
      ghost var lt := Leaf(leaf, nibbles, v);
      LeafHeld(leaf, nibbles, v);
      AppendHolds(this, Kids(t.children), c, leaf);
      branches := branches + [leaf];
      index := index[c := |branches| - 1];
      r := Branch(this, t.children[c := lt]);
      BranchWithLeaf(t, c, lt);
      BranchGrows(t, c, lt, len);
    }

    /** Put at an extension that the key leaves before its end. */
    method PutAtExtension(nibbles: Key, matched: nat, v: Value, ghost t: Tree<Node>)
      returns (ghost r: Tree<Node>)
      requires t.Ext? && t.tag == this && Rep(t) && Distinct(t) && Canonical(t, |nibbles|)
      requires t.key == keySlice && matched < |keySlice| && matched < |nibbles|
      requires keySlice[..matched] == nibbles[..matched] && keySlice[matched] != nibbles[matched]
      modifies this
      ensures r.tag == this && Rep(r) && Distinct(r)
      ensures forall o :: o in Tags(r) && o !in Tags(t) ==> fresh(o)
      ensures Canonical(r, |nibbles|) && Updated(t, r, nibbles, v)
    {
      hide *;
      ExtParts(t);
      TagInTags(t.next);
      TagsAllocated(t);
      var rest := keySlice[matched + 1..];
      var child := next;
      if |rest| > 0 {
        child := new Node.NewExtension(rest, next);
      }
      ghost var ct := ExtRest(t, matched, child);
      ExtRestHeld(t, matched, child);
      var leaf := new Node.NewLeaf(nibbles[matched + 1..], Some(v));
      ghost var lt := Leaf(leaf, nibbles[matched + 1..], v);
      LeafHeld(leaf, lt.key, v);
      ghost var b := Split(keySlice[..matched], keySlice[matched], child, nibbles[matched], leaf, ct, lt);
      r := Wrapped(this, t.key[..matched], Branch(b, map[t.key[matched] := ct, nibbles[matched] := lt]));
      ExtUnder(t, matched, child, |nibbles|);
      SplitUpdated(t, t.key, ct, this, b, lt, nibbles, matched, |nibbles|);
    }

    /** Removes a key the tree stores. A leaf disappears; any other node is kept and
        merges with a child left alone below it. */
    method Delete(key: Key, ghost t: Tree<Node>, ghost len: nat)
      returns (res: Node?, ghost r: Option<Tree<Node>>)
      requires t.tag == this && Rep(t) && Distinct(t) && Canonical(t, len) && Lookup(t, key).Some?
      modifies Tags(t)
      ensures (res == null <==> r.None?) && (r.None? <==> t.Leaf?)
      ensures r.Some? ==> res == this == r.value.tag && Rep(r.value) && Distinct(r.value)
                          && Canonical(r.value, len) && Tags(r.value) <= Tags(t)
      ensures Removed(t, r, key)
      decreases t
    {
      hide *;
      FlagOf(t);
      TagInTags(t);
      match flag
      case LeafFlag =>
        LeafGone(t, key);
        res, r := null, None;
      case ExtensionFlag =>
        ExtParts(t);
        ExtFound(t, key, len);
        var below, nr := next.Delete(key[|keySlice|..], t.next, len - |keySlice|);
        Merge(below, t.key, nr.value);
        ExtRemoved(t, nr.value, key, len);
        res, r := this, Some(Joined(this, t.key, nr.value));
      case BranchFlag =>
        // With keys of one length a key never ends at a branch, and a branch has two
        // children or more.
        BranchParts(t);
        TagsAllocated(t);
        BranchFound(t, key, len);
        var nibble := key[0];
        var branch := branches[index[nibble]];
        FlagOf(t.children[nibble]);
        if branch.flag == LeafFlag {
          res, r := DeleteLeafChild(nibble, key, t, len);
        } else {
          ChildParts(t, nibble);
          HoldsParts(this, Kids(t.children));
          var below, nr := branch.Delete(key[1..], t.children[nibble], len - 1);
          assert branches[index[nibble] := below] == branches;
          branches := branches[index[nibble] := below];
          HoldsIntro(this, Kids(t.children));
          ChildReplaced(t, nibble, nr.value);
          BranchRemoved(t, nr.value, key, len);
          res, r := this, Some(Branch(this, t.children[nibble := nr.value]));
        }
    }

    /** This node, an extension, goes on to what its child has become. */
    method Merge(below: Node, ghost path: Key, ghost child: Tree<Node>)
      requires flag == ExtensionFlag && keySlice == path && child.tag == below
      requires Rep(child) && Distinct(child) && this !in Tags(child)
      modifies this
      ensures var r := Joined(this, path, child);
              r.tag == this && Rep(r) && Distinct(r) && Tags(r) <= {this} + Tags(child)
    {
      hide *;
      FlagOf(child);
      TagInTags(child);
      match below.flag {
        case LeafFlag =>
          flag, next, keySlice, value := LeafFlag, null, keySlice + below.keySlice, below.value;
        case ExtensionFlag =>
          next, keySlice := below.next, keySlice + below.keySlice;
        case BranchFlag =>
          next := below;
      }
      JoinedHeld(this, path, child);
    }

    /** Takes slot i out of the branches and shifts the slots behind it down. */
    method DropSlot(nibble: Nibble, ghost kids: map<Nibble, Node>)
      requires Holds(this, kids) && nibble in kids
      modifies this
      ensures flag == old(flag) && value == old(value) && next == old(next)
      ensures Holds(this, kids - {nibble})
    {
      hide *;
      ghost var was, slots := index, branches;
      HoldsParts(this, kids);
      var i := index[nibble];
      branches := branches[..i] + branches[i + 1..];
      var k := 0;
      while k < 16
        invariant 0 <= k <= 16 && |index| == 16 && index[nibble] == i
        invariant flag == old(flag) && value == old(value) && next == old(next)
        invariant branches == slots[..i] + slots[i + 1..]
        invariant forall c: Nibble ::
                    index[c] == (if c < k && was[c] > i then was[c] - 1 else was[c])
      {
        if index[k] > index[nibble] {
          index := index[k := index[k] - 1];
        }
        k := k + 1;
      }
      index := index[nibble := -1];
      RemoveIndexed(was, slots, kids, nibble, index);
      HoldsIntro(this, kids - {nibble});
    }

    /** Deletes a child that is a leaf, and merges with the last child when only one is left. */
    method DeleteLeafChild(nibble: Nibble, key: Key, ghost t: Tree<Node>, ghost len: nat)
      returns (res: Node?, ghost r: Option<Tree<Node>>)
      requires t.tag == this && t.Branch? && Rep(t) && Distinct(t) && Canonical(t, len)
      requires Lookup(t, key).Some? && key != [] && key[0] == nibble
      requires nibble in t.children && t.children[nibble].Leaf?
      modifies this
      ensures r.Some? && res == this == r.value.tag && Rep(r.value) && Distinct(r.value)
      ensures Canonical(r.value, len) && Tags(r.value) <= Tags(t)
      ensures Removed(t, r, key)
    {
      hide *;
      BranchParts(t);
      TagsAllocated(t);
      DropSlot(nibble, Kids(t.children));
      ghost var left := t.children - {nibble};
      KidsLeft(t, nibble);
      HoldsParts(this, Kids(left));
      var length := |branches|;
      LeftOver(t, nibble, len);
      if length != 1 {
        LeafRemoved(t, key, len);
        StillBranch(t, nibble, len);
        res, r := this, Some(Branch(this, left));
        return;
      }
      var c := 0;
      ghost var sole := SoleNibble(Kids(left));
      while index[c] == -1
        invariant 0 <= c <= sole
        decreases 16 - c
      {
        c := c + 1;
      }
      assert c == sole;
      SoleChildRemoved(t, key, c, len);
      SoleParts(t, nibble, c);
      r := Absorb(c, left[c]);
      res := this;
    }

    /** This node, a branch with one child left, takes the place of that child. */
    method Absorb(c: Nibble, ghost child: Tree<Node>) returns (ghost r: Option<Tree<Node>>)
      requires |branches| == 1 && branches[0] == child.tag
      requires Rep(child) && Distinct(child) && this !in Tags(child)
      modifies this
      ensures r == Some(Joined(this, [c], child)) && r.value.tag == this
      ensures Rep(r.value) && Distinct(r.value) && Tags(r.value) <= {this} + Tags(child)
    {
      hide *;
      FlagOf(child);
      TagInTags(child);
      var branch := branches[0];
      match branch.flag {
        case LeafFlag =>
          flag, index, keySlice, value, branches :=
            LeafFlag, seq(16, i => 0), [c] + branch.keySlice, branch.value, [];
        case ExtensionFlag =>
          flag, next, index, keySlice, branches :=
            ExtensionFlag, branch.next, seq(16, i => 0), [c] + branch.keySlice, [];
        case BranchFlag =>
          flag, next, index, keySlice, branches :=
            ExtensionFlag, branch, seq(16, i => 0), [c], [];
      }
      JoinedHeld(this, [c], child);
      r := Some(Joined(this, [c], child));
    }
  }

  // ---------------------------------------------------------------------------
  // From the fields of a node to the tree it holds, and back

  lemma TagsAllocated(t: Tree<Node>)
    ensures forall m :: m in Tags(t) ==> allocated(m)
  {
  }

  lemma LeafFields(t: Tree<Node>)
    requires t.Leaf? && Rep(t)
    ensures t.tag.flag == LeafFlag && t.tag.keySlice == t.key && t.tag.value == Some(t.value)
  {
  }

  lemma LeafHeld(n: Node, key: Key, v: Value)
    requires n.flag == LeafFlag && n.keySlice == key && n.value == Some(v)
    ensures var t := Leaf(n, key, v); Rep(t) && Distinct(t) && Tags(t) == {n}
  {
  }

  lemma LeafCanonical(t: Tree<Node>)
    requires t.Leaf?
    ensures Canonical(t, |t.key|)
  {
  }

  lemma SameKeyLeaf(t: Tree<Node>, v: Value)
    requires t.Leaf?
    ensures var r := Leaf(t.tag, t.key, v);
            Distinct(r) && Tags(r) == {t.tag} && Canonical(r, |t.key|) && Updated(t, r, t.key, v)
    ensures t.tag.flag == LeafFlag && t.tag.keySlice == t.key && t.tag.value == Some(v) ==>
              Rep(Leaf(t.tag, t.key, v))
  {
  }

  lemma ExtParts(t: Tree<Node>)
    requires t.Ext? && Rep(t) && Distinct(t)
    ensures t.tag.flag == ExtensionFlag && t.tag.keySlice == t.key && t.tag.next == t.next.tag
    ensures Rep(t.next) && Distinct(t.next)
    ensures Tags(t) == {t.tag} + Tags(t.next) && t.tag !in Tags(t.next)
  {
  }

  lemma ExtRestHeld(t: Tree<Node>, m: nat, n: Node)
    requires t.Ext? && m < |t.key| && Rep(t.next) && Distinct(t.next)
    requires n == t.next.tag || n !in Tags(t.next)
    requires if |t.key| == m + 1 then n == t.next.tag
             else n !in Tags(t.next) && n.flag == ExtensionFlag && n.keySlice == t.key[m + 1..] && n.next == t.next.tag
    ensures var r := ExtRest(t, m, n);
            r.tag == n && Rep(r) && Distinct(r) && Tags(r) == {n} + Tags(t.next)
  {
    TagInTags(t.next);
  }

  lemma BranchParts(t: Tree<Node>)
    requires t.Branch? && Rep(t) && Distinct(t)
    ensures Holds(t.tag, Kids(t.children)) && RepKids(t.children)
    ensures Tags(t) == {t.tag} + KidTags(t.children) && t.tag !in KidTags(t.children)
    ensures Kids(t.children).Keys == t.children.Keys
    ensures forall c :: c in t.children ==> Kids(t.children)[c] == t.children[c].tag
    ensures |t.tag.index| == 16 && t.tag.flag == BranchFlag && t.tag.value == None
    ensures forall c: Nibble :: c in t.children <==> t.tag.index[c] != -1
    ensures forall c :: c in t.children ==>
              0 <= t.tag.index[c] < |t.tag.branches| && t.tag.branches[t.tag.index[c]] == t.children[c].tag
  {
  }

  lemma SameHolds(o: Node, n: Node, kids: map<Nibble, Node>)
    requires Holds(o, kids)
    requires n.flag == o.flag && n.value == o.value && n.index == o.index && n.branches == o.branches
    ensures Holds(n, kids)
  {
  }

  lemma WrappedHeld(n: Node, prefix: Key, b: Node, c: Nibble, ct: Tree<Node>, d: Nibble, lt: Tree<Node>)
    requires c != d && Rep(ct) && Rep(lt) && Distinct(ct) && Distinct(lt) && Tags(ct) !! Tags(lt)
    requires n !in Tags(ct) && n !in Tags(lt) && b !in Tags(ct) && b !in Tags(lt) && n != b
    requires if prefix == [] then Holds(n, map[c := ct.tag, d := lt.tag])
             else n.flag == ExtensionFlag && n.keySlice == prefix && n.next == b
                  && Holds(b, map[c := ct.tag, d := lt.tag])
    ensures var r := Wrapped(n, prefix, Branch(b, map[c := ct, d := lt]));
            r.tag == n && Rep(r) && Distinct(r) && Tags(r) <= {n, b} + Tags(ct) + Tags(lt)
  {
    hide *;
    if prefix == [] {
      PairTags(n, c, ct, d, lt);
      PairRep(n, c, ct, d, lt);
      PairDistinct(n, c, ct, d, lt);
      WrappedIs(n, prefix, Branch(b, map[c := ct, d := lt]));
    } else {
      PairTags(b, c, ct, d, lt);
      PairRep(b, c, ct, d, lt);
      PairDistinct(b, c, ct, d, lt);
      WrappedIs(n, prefix, Branch(b, map[c := ct, d := lt]));
      ExtHeld(n, prefix, Branch(b, map[c := ct, d := lt]));
    }
  }

  lemma WrappedIs(n: Node, prefix: Key, b: Tree<Node>)
    requires b.Branch?
    ensures Wrapped(n, prefix, b) == if prefix == [] then Branch(n, b.children) else Ext(n, prefix, b)
  {
  }

  lemma ExtHeld(n: Node, key: Key, t: Tree<Node>)
    requires Rep(t) && Distinct(t) && n !in Tags(t)
    requires n.flag == ExtensionFlag && n.keySlice == key && n.next == t.tag
    ensures var r := Ext(n, key, t); Rep(r) && Distinct(r) && Tags(r) == {n} + Tags(t)
  {
  }

  lemma PairRep(n: Node, c: Nibble, ct: Tree<Node>, d: Nibble, lt: Tree<Node>)
    requires c != d && Rep(ct) && Rep(lt) && Holds(n, map[c := ct.tag, d := lt.tag])
    ensures Rep(Branch(n, map[c := ct, d := lt]))
  {
    hide Holds, Tags;
    var kids := map[c := ct, d := lt];
    assert Kids(kids) == map[c := ct.tag, d := lt.tag];
    forall e | e in kids ensures Rep(kids[e]) {}
  }

  lemma PairDistinct(n: Node, c: Nibble, ct: Tree<Node>, d: Nibble, lt: Tree<Node>)
    requires c != d && Distinct(ct) && Distinct(lt) && Tags(ct) !! Tags(lt)
    requires n !in Tags(ct) && n !in Tags(lt)
    ensures Distinct(Branch(n, map[c := ct, d := lt]))
  {
  }

  lemma PairTags(n: Node, c: Nibble, ct: Tree<Node>, d: Nibble, lt: Tree<Node>)
    requires c != d
    ensures Tags(Branch(n, map[c := ct, d := lt])) == {n} + Tags(ct) + Tags(lt)
  {
    var kids := map[c := ct, d := lt];
    assert c in kids && d in kids && kids[c] == ct && kids[d] == lt;
  }

  lemma AppendHolds(n: Node, kids: map<Nibble, Node>, c: Nibble, leaf: Node)
    requires Holds(n, kids) && c !in kids
    ensures |n.index| == 16
    ensures Indexed(n.index[c := |n.branches|], n.branches + [leaf], kids[c := leaf])
  {
  }

  lemma BranchWithLeaf(t: Tree<Node>, c: Nibble, leaf: Tree<Node>)
    requires t.Branch? && Distinct(t) && RepKids(t.children) && c !in t.children
    requires leaf.Leaf? && Rep(leaf) && leaf.tag !in Tags(t)
    requires t.tag.flag == BranchFlag && t.tag.value == None
    requires Indexed(t.tag.index, t.tag.branches, Kids(t.children)[c := leaf.tag])
    ensures var r := Branch(t.tag, t.children[c := leaf]);
            Rep(r) && Distinct(r) && Tags(r) <= Tags(t) + {leaf.tag}
  {
    hide *;
    var kids := t.children[c := leaf];
    HoldsIntro(t.tag, Kids(t.children)[c := leaf.tag]);
    RepWithLeaf(t, c, leaf);
    DistinctWithLeaf(t, c, leaf);
  }

  lemma RepWithLeaf(t: Tree<Node>, c: Nibble, leaf: Tree<Node>)
    requires t.Branch? && RepKids(t.children) && Rep(leaf)
    requires Holds(t.tag, Kids(t.children)[c := leaf.tag])
    ensures Rep(Branch(t.tag, t.children[c := leaf]))
  {
    hide Holds, Tags;
    assert Kids(t.children[c := leaf]) == Kids(t.children)[c := leaf.tag];
  }

  lemma DistinctWithLeaf(t: Tree<Node>, c: Nibble, leaf: Tree<Node>)
    requires t.Branch? && Distinct(t) && c !in t.children && leaf.Leaf? && leaf.tag !in Tags(t)
    ensures var r := Branch(t.tag, t.children[c := leaf]);
            Distinct(r) && Tags(r) <= Tags(t) + {leaf.tag}
  {
  }

  // ---------------------------------------------------------------------------
  // Branches stored in nibble order

  ghost function Between(s: set<Nibble>, lo: int, hi: int): set<Nibble> {
    set c | c in s && lo < c < hi
  }

  /** How many of the nibbles lie below c. */
  ghost function Rank(s: set<Nibble>, c: int): nat {
    |Between(s, -1, c)|
  }

  /** Every child sits in the slot of its rank. */
  ghost predicate Ranked(index: seq<int>, s: set<Nibble>) {
    |index| == 16 && forall c :: c in s ==> index[c] == Rank(s, c)
  }

  lemma SplitRank(s: set<Nibble>, c: Nibble)
    requires c !in s
    ensures |s| == Rank(s, c) + |Between(s, c, 16)|
  {
    assert s == Between(s, -1, c) + Between(s, c, 16);
  }

  lemma RankGrows(s: set<Nibble>, nibble: Nibble, c: Nibble)
    requires nibble !in s
    ensures Rank(s + {nibble}, c) == Rank(s, c) + if nibble < c then 1 else 0
  {
    assert Between(s + {nibble}, -1, c) == Between(s, -1, c) + if nibble < c then {nibble} else {};
  }

  lemma RankOrder(s: set<Nibble>, c: Nibble, d: Nibble)
    requires c in s && d !in s
    ensures c < d <==> Rank(s, c) < Rank(s, d)
  {
    if c < d {
      SubsetSize(Between(s, -1, c) + {c}, Between(s, -1, d));
    } else {
      SubsetSize(Between(s, -1, d), Between(s, -1, c));
    }
  }

  /** The slots after inserting at slot front, when the slots are in nibble order. */
  ghost predicate Shifted(was: seq<int>, index: seq<int>, nibble: Nibble, front: nat) {
    && |was| == |index| == 16 && index[nibble] == front
    && forall c: Nibble :: c != nibble ==>
         index[c] == (if nibble < c && was[c] != -1 then was[c] + 1 else was[c])
  }

  lemma ShiftedAt(was: seq<int>, index: seq<int>, nibble: Nibble, front: nat)
    requires |index| == 16 && Shifted(was, index[nibble := 0], nibble, 0)
    ensures Shifted(was, index[nibble := front], nibble, front)
  {
    var room, now := index[nibble := 0], index[nibble := front];
    assert forall c: Nibble :: c != nibble ==> now[c] == room[c];
  }

  function Inserted(branches: seq<Node>, node: Node, front: nat): seq<Node>
    requires front <= |branches|
  {
    branches[..front] + [node] + branches[front..]
  }

  lemma InsertedIs(branches: seq<Node>, node: Node, front: nat)
    requires front <= |branches|
    ensures Inserted(branches, node, front) == branches[..front] + [node] + branches[front..]
  {
  }

  lemma IndexedParts(index: seq<int>, branches: seq<Node>, kids: map<Nibble, Node>)
    requires Indexed(index, branches, kids)
    ensures |index| == 16 && |branches| == |kids|
    ensures forall c: Nibble :: c in kids <==> index[c] != -1
    ensures forall c: Nibble :: c in kids.Keys <==> index[c] != -1
  {
  }

  lemma BetweenSize(kids: map<Nibble, Node>, nibble: Nibble)
    ensures |Between(kids.Keys, nibble, 16)| <= |kids|
    ensures nibble !in kids ==> Rank(kids.Keys, nibble) == |kids| - |Between(kids.Keys, nibble, 16)|
  {
    assert |kids| == |kids.Keys|;
    SubsetSize(Between(kids.Keys, nibble, 16), kids.Keys);
    if nibble !in kids { SplitRank(kids.Keys, nibble); }
  }

  /** The entries above the nibble are the last ones stored. */
  ghost predicate LastAbove(was: seq<int>, s: set<Nibble>, nibble: Nibble, front: nat) {
    |was| == 16 && forall c :: c in s ==> (c < nibble <==> was[c] < front)
  }

  lemma InsertIndexed(was: seq<int>, branches: seq<Node>, kids: map<Nibble, Node>, nibble: Nibble,
                      node: Node, front: nat, index: seq<int>)
    requires Indexed(was, branches, kids) && nibble !in kids
    requires front == |branches| - |Between(kids.Keys, nibble, 16)| && Shifted(was, index, nibble, front)
    ensures Indexed(index, Inserted(branches, node, front), kids[nibble := node]) <==>
            LastAbove(was, kids.Keys, nibble, front)
  {
    hide Indexed, LastAbove;
    if LastAbove(was, kids.Keys, nibble, front) {
      InsertedIndexed(was, branches, kids, nibble, node, front, index);
    }
    if Indexed(index, Inserted(branches, node, front), kids[nibble := node]) {
      InsertedInjective(index, Inserted(branches, node, front), kids, nibble, node);
      OnlyLastAbove(was, branches, kids, nibble, node, front, index);
    }
  }

  lemma InsertedInjective(index: seq<int>, slots: seq<Node>, kids: map<Nibble, Node>, nibble: Nibble, node: Node)
    requires Indexed(index, slots, kids[nibble := node])
    ensures |index| == 16 && forall d, e :: d in kids && e in kids && index[d] == index[e] ==> d == e
  {
  }

  lemma InsertedIndexed(was: seq<int>, branches: seq<Node>, kids: map<Nibble, Node>, nibble: Nibble,
                        node: Node, front: nat, index: seq<int>)
    requires Indexed(was, branches, kids) && nibble !in kids
    requires front <= |branches| && Shifted(was, index, nibble, front)
    requires LastAbove(was, kids.Keys, nibble, front)
    ensures Indexed(index, Inserted(branches, node, front), kids[nibble := node])
  {
  }

  /** The slots of the nibbles. */
  ghost function Slots(was: seq<int>, s: set<Nibble>): set<int>
    requires |was| == 16
  {
    set c | c in s :: was[c]
  }

  lemma {:induction false} SlotCount(was: seq<int>, s: set<Nibble>)
    requires |was| == 16 && forall c, d :: c in s && d in s && was[c] == was[d] ==> c == d
    ensures |Slots(was, s)| == |s|
    decreases |s|
  {
    if s == {} {
      assert Slots(was, s) == {};
    } else {
      var c :| c in s;
      SlotCount(was, s - {c});
      assert Slots(was, s) == Slots(was, s - {c}) + {was[c]};
      assert was[c] !in Slots(was, s - {c});
    }
  }

  ghost function Range(lo: int, hi: int): (r: set<int>)
    ensures forall i :: i in r <==> lo <= i < hi
    ensures lo <= hi ==> |r| == hi - lo
    decreases hi - lo
  {
    if lo >= hi then {} else Range(lo, hi - 1) + {hi - 1}
  }

  /** Every slot is in use. */
  lemma AllSlots(was: seq<int>, branches: seq<Node>, kids: map<Nibble, Node>, i: int) returns (c: Nibble)
    requires Indexed(was, branches, kids) && 0 <= i < |branches|
    ensures c in kids && was[c] == i
  {
    var used := Slots(was, kids.Keys);
    var all := Range(0, |branches|);
    SlotCount(was, kids.Keys);
    assert |kids| == |kids.Keys|;
    assert used <= all;
    assert used == all by { SubsetSize(used, all); SameSize(used, all); }
    assert i in used;
    c :| c in kids && was[c] == i;
  }

  lemma SameSize(s: set<int>, t: set<int>)
    requires s <= t && |s| == |t|
    ensures s == t
  {
    assert |t - s| == 0;
  }

  /** Above an entry that is above the nibble all slots are. */
  lemma {:induction false} AboveUpwards(was: seq<int>, branches: seq<Node>, kids: map<Nibble, Node>, nibble: Nibble,
                                        index: seq<int>, front: nat, c: Nibble, i: int)
    requires Indexed(was, branches, kids) && nibble !in kids && Shifted(was, index, nibble, front)
    requires forall d, e :: d in kids && e in kids && index[d] == index[e] ==> d == e
    requires c in kids && c > nibble && was[c] <= i < |branches|
    ensures i in Slots(was, Between(kids.Keys, nibble, 16))
    decreases i
  {
    if i > was[c] {
      AboveUpwards(was, branches, kids, nibble, index, front, c, i - 1);
      var b :| b in Between(kids.Keys, nibble, 16) && was[b] == i - 1;
      var d := AllSlots(was, branches, kids, i);
      assert b != d && index[b] == i && index[d] == if nibble < d then i + 1 else i;
      assert d in Between(kids.Keys, nibble, 16);
    } else {
      assert c in Between(kids.Keys, nibble, 16);
    }
  }

  lemma AboveIsLast(was: seq<int>, branches: seq<Node>, kids: map<Nibble, Node>, nibble: Nibble,
                    front: nat, index: seq<int>, c: Nibble)
    requires Indexed(was, branches, kids) && nibble !in kids
    requires front == |branches| - |Between(kids.Keys, nibble, 16)| && Shifted(was, index, nibble, front)
    requires forall d, e :: d in kids && e in kids && index[d] == index[e] ==> d == e
    requires c in kids && c > nibble
    ensures was[c] >= front
  {
    var above, up := Slots(was, Between(kids.Keys, nibble, 16)), Range(was[c], |branches|);
    SlotCount(was, Between(kids.Keys, nibble, 16));
    forall i | i in up ensures i in above {
      AboveUpwards(was, branches, kids, nibble, index, front, c, i);
    }
    SubsetSize(up, above);
  }

  lemma OnlyLastAbove(was: seq<int>, branches: seq<Node>, kids: map<Nibble, Node>, nibble: Nibble,
                      node: Node, front: nat, index: seq<int>)
    requires Indexed(was, branches, kids) && nibble !in kids
    requires front == |branches| - |Between(kids.Keys, nibble, 16)| && Shifted(was, index, nibble, front)
    requires forall d, e :: d in kids && e in kids && index[d] == index[e] ==> d == e
    ensures LastAbove(was, kids.Keys, nibble, front)
  {
    hide Shifted;
    var above, last := Slots(was, Between(kids.Keys, nibble, 16)), Range(front, |branches|);
    SlotCount(was, Between(kids.Keys, nibble, 16));
    forall c | c in kids && c > nibble ensures was[c] >= front {
      AboveIsLast(was, branches, kids, nibble, front, index, c);
    }
    assert above <= last;
    SameSize(above, last);
    assert forall c :: c in kids && was[c] >= front ==> was[c] in above;
    assert forall c, d :: c in kids && c < nibble && d in Between(kids.Keys, nibble, 16) ==> was[d] != was[c];
  }

  /** The branches with one of them replaced index the children with the one of the nibble
      replaced exactly if it sat in that slot, or nothing was replaced. */
  lemma SlotReplaced(was: seq<int>, branches: seq<Node>, kids: map<Nibble, Node>, nibble: Nibble, node: Node)
    requires Indexed(was, branches, kids) && nibble in kids && nibble < |branches|
    ensures Indexed(was, branches[nibble := node], kids[nibble := node]) <==>
            was[nibble] == nibble || (branches[nibble] == node == kids[nibble])
  {
    var c := AllSlots(was, branches, kids, nibble);
    assert |kids[nibble := node]| == |kids| by {
      assert kids[nibble := node].Keys == kids.Keys;
      assert |kids| == |kids.Keys| && |kids[nibble := node]| == |kids[nibble := node].Keys|;
    }
    if c != nibble && Indexed(was, branches[nibble := node], kids[nibble := node]) {
      assert branches[nibble := node][was[c]] == kids[nibble := node][c] == kids[c];
      assert branches[nibble := node][was[nibble]] == kids[nibble := node][nibble];
    }
  }

  lemma InsertRanked(was: seq<int>, s: set<Nibble>, nibble: Nibble, front: nat, index: seq<int>)
    requires Ranked(was, s) && nibble !in s && front == Rank(s, nibble)
    requires Shifted(was, index, nibble, front)
    ensures LastAbove(was, s, nibble, front) && Ranked(index, s + {nibble})
  {
    forall c | c in s ensures c < nibble <==> was[c] < front {
      RankOrder(s, c, nibble);
    }
    forall c | c in s + {nibble} ensures index[c] == Rank(s + {nibble}, c) {
      RankGrows(s, nibble, c);
    }
  }

  // ---------------------------------------------------------------------------
  // Deletion

  lemma FlagOf(t: Tree<Node>)
    requires Rep(t)
    ensures t.Leaf? <==> t.tag.flag == LeafFlag
    ensures t.Ext? <==> t.tag.flag == ExtensionFlag
    ensures t.Branch? <==> t.tag.flag == BranchFlag
    ensures !t.Branch? ==> t.tag.keySlice == t.key
    ensures t.Leaf? ==> t.tag.value == Some(t.value)
    ensures t.Ext? ==> t.tag.next == t.next.tag
  {
  }

  lemma LeafGone(t: Tree<Node>, key: Key)
    requires t.Leaf? && Lookup(t, key).Some?
    ensures Removed(t, None, key)
  {
  }

  lemma ExtFound(t: Tree<Node>, key: Key, len: nat)
    requires t.Ext? && Canonical(t, len) && Lookup(t, key).Some?
    ensures t.key <= key && |t.key| <= len && t.next.Branch?
    ensures Canonical(t.next, len - |t.key|) && Lookup(t.next, key[|t.key|..]).Some?
  {
  }

  lemma BranchFound(t: Tree<Node>, key: Key, len: nat)
    requires t.Branch? && Canonical(t, len) && Lookup(t, key).Some?
    ensures key != [] && key[0] in t.children && len > 0
    ensures Canonical(t.children[key[0]], len - 1) && Lookup(t.children[key[0]], key[1..]).Some?
  {
  }

  lemma JoinedHeld(n: Node, path: Key, t: Tree<Node>)
    requires Rep(t) && Distinct(t) && n !in Tags(t)
    requires t.Leaf? ==> n.flag == LeafFlag && n.keySlice == path + t.key && n.value == Some(t.value)
    requires t.Ext? ==> n.flag == ExtensionFlag && n.keySlice == path + t.key && n.next == t.next.tag
    requires t.Branch? ==> n.flag == ExtensionFlag && n.keySlice == path && n.next == t.tag
    ensures var r := Joined(n, path, t);
            r.tag == n && Rep(r) && Distinct(r) && Tags(r) <= {n} + Tags(t)
  {
  }

  lemma HoldsParts(n: Node, kids: map<Nibble, Node>)
    requires Holds(n, kids)
    ensures n.flag == BranchFlag && n.value == None && Indexed(n.index, n.branches, kids)
    ensures |n.index| == 16 && |n.branches| == |kids|
    ensures forall c: Nibble :: c in kids <==> n.index[c] != -1
    ensures forall c :: c in kids ==> 0 <= n.index[c] < |n.branches| && n.branches[n.index[c]] == kids[c]
  {
  }

  lemma HoldsIntro(n: Node, kids: map<Nibble, Node>)
    requires n.flag == BranchFlag && n.value == None && Indexed(n.index, n.branches, kids)
    ensures Holds(n, kids)
  {
  }

  lemma RemoveIndexed(was: seq<int>, slots: seq<Node>, kids: map<Nibble, Node>, nibble: Nibble,
                      index: seq<int>)
    requires Indexed(was, slots, kids) && nibble in kids
    requires |index| == 16 && index[nibble] == -1
    requires forall c: Nibble :: c != nibble ==>
               index[c] == (if was[c] > was[nibble] then was[c] - 1 else was[c])
    ensures Indexed(index, slots[..was[nibble]] + slots[was[nibble] + 1..], kids - {nibble})
  {
    var left, rest := kids - {nibble}, slots[..was[nibble]] + slots[was[nibble] + 1..];
    DropSize(kids, nibble);
    forall c | c in left ensures 0 <= index[c] < |rest| && rest[index[c]] == left[c] {
      SlotKept(was, slots, kids, nibble, c);
    }
  }

  lemma SlotKept(was: seq<int>, slots: seq<Node>, kids: map<Nibble, Node>, nibble: Nibble, c: Nibble)
    requires Indexed(was, slots, kids) && nibble in kids && c in kids && c != nibble
    ensures
      var rest := slots[..was[nibble]] + slots[was[nibble] + 1..];
      var i := if was[c] > was[nibble] then was[c] - 1 else was[c];
      0 <= i < |rest| && rest[i] == kids[c]
  {
    assert was[c] != was[nibble];
  }

  lemma DropSize(kids: map<Nibble, Node>, c: Nibble)
    requires c in kids
    ensures |kids - {c}| == |kids| - 1
  {
    assert kids.Keys == (kids - {c}).Keys + {c};
    assert |kids| == |kids.Keys| && |kids - {c}| == |(kids - {c}).Keys|;
  }

  lemma ChildParts(t: Tree<Node>, c: Nibble)
    requires t.Branch? && Rep(t) && Distinct(t) && c in t.children
    ensures Rep(t.children[c]) && Distinct(t.children[c]) && Tags(t.children[c]) <= Tags(t)
    ensures t.tag !in Tags(t.children[c])
    ensures Holds(t.tag, Kids(t.children)) && RepKids(t.children - {c})
    ensures KidTags(t.children - {c}) <= Tags(t)
    ensures KidTags(t.children - {c}) !! Tags(t.children[c]) && t.tag !in KidTags(t.children - {c})
  {
  }

  lemma RepReplaced(t: Tree<Node>, c: Nibble, child: Tree<Node>)
    requires t.Branch? && c in t.children && Rep(child) && child.tag == t.children[c].tag
    requires Holds(t.tag, Kids(t.children)) && RepKids(t.children - {c})
    ensures Rep(Branch(t.tag, t.children[c := child]))
  {
    hide Holds, Tags;
    var r := Branch(t.tag, t.children[c := child]);
    assert Kids(r.children) == Kids(t.children);
    forall d | d in r.children && d != c
      ensures d in t.children - {c} && r.children[d] == t.children[d] && Rep(r.children[d])
    {
      assert d in t.children - {c};
    }
  }

  lemma DistinctReplaced(t: Tree<Node>, c: Nibble, child: Tree<Node>)
    requires t.Branch? && Distinct(t) && c in t.children && Distinct(child) && Tags(child) <= Tags(t.children[c])
    ensures var r := Branch(t.tag, t.children[c := child]);
            Distinct(r) && Tags(r) <= Tags(t)
  {
  }

  /** A child swapped for another one that reuses its objects. */
  lemma ChildReplaced(t: Tree<Node>, c: Nibble, child: Tree<Node>)
    requires t.Branch? && Distinct(t) && c in t.children
    requires Rep(child) && Distinct(child) && Tags(child) <= Tags(t.children[c])
    requires child.tag == t.children[c].tag
    requires Holds(t.tag, Kids(t.children)) && RepKids(t.children - {c})
    ensures var r := Branch(t.tag, t.children[c := child]);
            Rep(r) && Distinct(r) && Tags(r) <= Tags(t)
  {
    hide *;
    RepReplaced(t, c, child);
    DistinctReplaced(t, c, child);
  }

  lemma KidsLeft(t: Tree<Node>, c: Nibble)
    requires t.Branch?
    ensures Kids(t.children - {c}) == Kids(t.children) - {c}
    ensures forall d :: d in Kids(t.children - {c}) <==> d in t.children && d != c
  {
  }

  /** Another child is left when one of two or more is dropped. */
  lemma LeftOver(t: Tree<Node>, c: Nibble, len: nat)
    requires t.Branch? && Canonical(t, len) && c in t.children
    ensures |Kids(t.children - {c})| > 0
  {
    var d, e :| d in t.children && e in t.children && d != e;
    assert (if d == c then e else d) in Kids(t.children - {c});
  }

  lemma TwoOf(s: set<Nibble>) returns (d: Nibble, e: Nibble)
    requires |s| > 1
    ensures d in s && e in s && d != e
  {
    d :| d in s;
    assert |s - {d}| == |s| - 1;
    e :| e in s - {d};
  }

  lemma StillBranch(t: Tree<Node>, c: Nibble, len: nat)
    requires t.Branch? && Canonical(t, len) && Distinct(t) && c in t.children
    requires |Kids(t.children - {c})| > 1
    requires RepKids(t.children) && Holds(t.tag, Kids(t.children - {c}))
    ensures var r := Branch(t.tag, t.children - {c});
            Rep(r) && Distinct(r) && Canonical(r, len) && Tags(r) <= Tags(t)
  {
    var r := Branch(t.tag, t.children - {c});
    var kids := Kids(r.children);
    assert |kids| == |kids.Keys|;
    var d, e := TwoOf(kids.Keys);
    assert d in r.children && e in r.children;
    forall f | f in r.children ensures f in t.children && r.children[f] == t.children[f] {}
    assert Canonical(r, len);
  }

  ghost function SoleNibble(kids: map<Nibble, Node>): (c: Nibble)
    requires |kids| == 1
    ensures c in kids && forall d :: d in kids ==> d == c
  {
    assert |kids.Keys| == 1;
    var c :| c in kids;
    assert kids.Keys - {c} == {} by {
      assert |kids.Keys - {c}| == 0;
    }
    c
  }

  lemma SoleParts(t: Tree<Node>, nibble: Nibble, c: Nibble)
    requires t.Branch? && Distinct(t) && c in t.children && RepKids(t.children)
    ensures Rep(t.children[c]) && Distinct(t.children[c])
    ensures t.tag !in Tags(t.children[c]) && Tags(t.children[c]) <= Tags(t)
  {
  }

  // ---------------------------------------------------------------------------
  // The trie

  ghost function Stored(tree: Option<Tree<Node>>, k: Key): Option<Value> {
    if tree.Some? then Lookup(tree.value, k) else None
  }

  /** The tree stores exactly these pairs. */
  ghost predicate Stores(tree: Option<Tree<Node>>, contents: map<seq<Byte>, Value>) {
    forall k: seq<Byte> ::
      Stored(tree, Nibbles(k)) == if k in contents then Some(contents[k]) else None
  }

  class Trie {
    var root: Node?
    /** The length of the byte keys put in. */
    ghost const keyLen: nat
    ghost var tree: Option<Tree<Node>>
    /** The map this trie stands for. */
    ghost var contents: map<seq<Byte>, Value>

    ghost function Objects(): set<Node>
      reads this
    {
      if tree.Some? then Tags(tree.value) else {}
    }

    ghost predicate Held()
      reads this, Objects()
    {
      match tree
      case None => root == null
      case Some(t) => root == t.tag && Rep(t) && Distinct(t) && Canonical(t, 2 * keyLen)
    }

    ghost predicate Valid()
      reads this, Objects()
    {
      Held() && Stores(tree, contents)
    }

    constructor (ghost keyLen: nat)
      ensures Valid() && contents == map[] && this.keyLen == keyLen && Objects() == {}
    {
      root, tree, contents := null, None, map[];
      this.keyLen := keyLen;
    }

    method Get(key: seq<Byte>) returns (found: Option<Value>)
      requires Valid()
      ensures found == if key in contents then Some(contents[key]) else None
    {
      hide Rep, Distinct, Canonical, Tags;
      TrieAllocated(this);
      TrieParts(this);
      var nibbles := FromBytes(key);
      if root == null {
        return None;
      }
      assert Stored(tree, Nibbles(key)) == Lookup(tree.value, nibbles);
      var node := root;
      ghost var cur := tree.value;
      while true
        invariant node == cur.tag && Rep(cur)
        invariant Lookup(cur, nibbles) == Lookup(tree.value, Nibbles(key))
        decreases cur
      {
        FlagOf(cur);
        TagsAllocated(cur);
        match node.flag {
          case LeafFlag =>
            var matched := PrefixMatchedLen(node.keySlice, nibbles);
            if matched != |node.keySlice| || matched != |nibbles| {
              return None;
            }
            assert node.keySlice[..matched] == node.keySlice && nibbles[..matched] == nibbles;
            return node.value;
          case BranchFlag =>
            BranchHeld(cur);
            if |nibbles| == 0 {
              return node.value;
            }
            var b := nibbles[0];
            nibbles := nibbles[1..];
            if node.index[b] == -1 {
              return None;
            }
            node := node.branches[node.index[b]];
            cur := cur.children[b];
          case ExtensionFlag =>
            var matched := PrefixMatchedLen(node.keySlice, nibbles);
            if matched < |node.keySlice| {
              return None;
            }
            assert node.keySlice[..matched] == node.keySlice;
            ExtHeldBelow(cur);
            nibbles := nibbles[matched..];
            node := node.next;
            cur := cur.next;
        }
      }
    }

    /** Records in the ghost state that the subtree in the hole was rewritten. */
    ghost method Rewritten(ctx: Ctx<Node>, cur: Tree<Node>, r: Tree<Node>, nibbles: Key,
                           key: seq<Byte>, v: Value)
      requires tree == Some(Plug(ctx, cur)) && root == tree.value.tag
      requires Distinct(tree.value) && Canonical(tree.value, 2 * keyLen) && Stores(tree, contents)
      requires Path(ctx) + nibbles == Nibbles(key) && |Path(ctx)| <= 2 * keyLen
      requires RepCtx(ctx, r.tag) && Rep(r) && Distinct(r) && r.tag == cur.tag
      requires CtxTags(ctx) !! Tags(r)
      requires Canonical(r, 2 * keyLen - |Path(ctx)|) && Updated(cur, r, nibbles, v)
      requires cur.Branch? ==> r.Branch?
      modifies this`tree, this`contents
      ensures Valid() && contents == old(contents)[key := v]
      ensures tree == Some(Plug(ctx, r)) && Objects() == Tags(Plug(ctx, r))
    {
      hide *;
      RepPlug(ctx, r);
      PlugDistinct(ctx, cur, r);
      PlugCanonical(ctx, cur, r, 2 * keyLen);
      PlugUpdated(ctx, cur, r, nibbles, v);
      PlugRoot(ctx, cur, r);
      StoresUpdated(tree.value, Plug(ctx, r), contents, key, v);
      assert forall o :: o in Tags(Plug(ctx, r)) ==> o as object != this;
      tree := Some(Plug(ctx, r));
      contents := contents[key := v];
      TrieHeld(this);
    }

    method Put(key: seq<Byte>, v: Value)
      requires Valid() && |key| == keyLen
      modifies this, Objects()
      ensures Valid() && contents == old(contents)[key := v]
      ensures forall o :: o in Objects() && o !in old(Objects()) ==> fresh(o)
    {
      hide *;
      TrieAllocated(this);
      TrieParts(this);
      var nibbles := FromBytes(key);
      NibblesLength(key);
      if root == null {
        var leaf := new Node.NewLeaf(nibbles, Some(v));
        LeafHeld(leaf, nibbles, v);
        LeafCanonical(Leaf(leaf, nibbles, v));
        FirstStored(Leaf(leaf, nibbles, v), contents, key);
        root, tree, contents := leaf, Some(Leaf(leaf, nibbles, v)), contents[key := v];
        TrieHeld(this);
        return;
      }
      PutBelowRoot(key, nibbles, v);
    }

    /** The descent of Put: one node at the end of the path is overwritten in place. */
    method PutBelowRoot(key: seq<Byte>, all: Key, v: Value)
      requires Valid() && root != null && |key| == keyLen && all == Nibbles(key)
      modifies this, Objects()
      ensures Valid() && contents == old(contents)[key := v]
      ensures forall o :: o in Objects() && o !in old(Objects()) ==> fresh(o)
    {
      hide *;
      TrieParts(this);
      NibblesLength(key);
      TagsAllocated(tree.value);
      var nibbles := all;
      var node := root;
      ghost var cur, ctx := tree.value, Top;
      TopIs(cur);
      assert [] + nibbles == all;
      while true
        invariant tree == old(tree) && contents == old(contents) && root == old(root)
        invariant tree == Some(Plug(ctx, cur)) && node == cur.tag
        invariant Tags(tree.value) == old(Objects())
        invariant Path(ctx) + nibbles == all
        invariant Rep(tree.value)
        decreases cur
      {
        RepPlug(ctx, cur);
        HoleDistinct(ctx, cur);
        HoleCanonical(ctx, cur, 2 * keyLen);
        PlugTags(ctx, cur);
        TagInTags(cur);
        FlagOf(cur);
        match node.flag {
          case LeafFlag =>
            LeafLength(cur, |nibbles|);
            ghost var r := node.PutAtLeaf(nibbles, v, cur);
            Rewritten(ctx, cur, r, nibbles, key, v);
            PlugTags(ctx, r);
            break;
          case BranchFlag =>
            // A key never ends at a branch: keys have one length.
            BranchHeld(cur);
            BranchLength(cur, |nibbles|);
            var b := nibbles[0];
            if node.index[b] == -1 {
              ghost var r := node.PutAtBranch(b, nibbles[1..], v, cur, |nibbles|);
              assert [b] + nibbles[1..] == nibbles;
              Rewritten(ctx, cur, r, nibbles, key, v);
              PlugTags(ctx, r);
              break;
            }
            InBranchIs(ctx, cur, b);
            assert Path(ctx) + [b] + nibbles[1..] == all;
            nibbles := nibbles[1..];
            node := node.branches[node.index[b]];
            ctx := InBranch(cur.tag, b, cur.children - {b}, ctx);
            cur := cur.children[b];
          case ExtensionFlag =>
            var matched := PrefixMatchedLen(node.keySlice, nibbles);
            ExtLength(cur, |nibbles|);
            if matched < |node.keySlice| {
              ghost var r := node.PutAtExtension(nibbles, matched, v, cur);
              Rewritten(ctx, cur, r, nibbles, key, v);
              PlugTags(ctx, r);
              break;
            }
            InExtIs(ctx, cur);
            assert node.keySlice[..matched] == node.keySlice == cur.key;
            assert Path(ctx) + cur.key + nibbles[matched..] == all by {
              assert nibbles == nibbles[..matched] + nibbles[matched..];
            }
            nibbles := nibbles[matched..];
            node := node.next;
            ctx := InExt(cur.tag, cur.key, ctx);
            cur := cur.next;
        }
      }
    }

    /** Removes a key, or reports that it is not there and changes nothing. */
    method Delete(key: seq<Byte>) returns (ok: bool)
      requires Valid()
      modifies this, Objects()
      ensures Valid() && Objects() <= old(Objects())
      ensures ok <==> key in old(contents)
      ensures contents == old(contents) - {key}
      ensures !ok ==> tree == old(tree)
    {
      hide *;
      TrieAllocated(this);
      var found := Get(key);
      if found.None? {
        return false;
      }
      TrieParts(this);
      var nibbles := FromBytes(key);
      StoredSome(tree, contents, key);
      ghost var t := tree.value;
      TagsAllocated(t);
      var res, r := root.Delete(nibbles, t, 2 * keyLen);
      StoresRemoved(t, r, contents, key);
      root, tree, contents := res, r, contents - {key};
      TrieHeld(this);
      ok := true;
    }
  }

  // ---------------------------------------------------------------------------
  // Steps of the three operations

  lemma TrieAllocated(t: Trie)
    ensures forall m :: m in t.Objects() ==> allocated(m)
  {
    if t.tree.Some? { TagsAllocated(t.tree.value); }
  }

  lemma TrieParts(t: Trie)
    requires t.Valid()
    ensures t.root == null <==> t.tree.None?
    ensures Stores(t.tree, t.contents)
    ensures t.tree.Some? ==> t.Objects() == Tags(t.tree.value) && t.root == t.tree.value.tag
                             && Rep(t.tree.value) && Distinct(t.tree.value)
                             && Canonical(t.tree.value, 2 * t.keyLen)
    ensures t.tree.None? ==> t.Objects() == {}
  {
  }

  lemma TrieHeld(t: Trie)
    requires Stores(t.tree, t.contents)
    requires t.tree.None? ==> t.root == null
    requires t.tree.Some? ==> t.root == t.tree.value.tag && Rep(t.tree.value)
                              && Distinct(t.tree.value) && Canonical(t.tree.value, 2 * t.keyLen)
    ensures t.Valid()
    ensures t.Objects() == if t.tree.Some? then Tags(t.tree.value) else {}
  {
  }

  lemma BranchHeld(t: Tree<Node>)
    requires t.Branch? && Rep(t)
    ensures |t.tag.index| == 16 && t.tag.value == None
    ensures forall c: Nibble :: c in t.children <==> t.tag.index[c] != -1
    ensures forall c :: c in t.children ==>
              && 0 <= t.tag.index[c] < |t.tag.branches|
              && t.tag.branches[t.tag.index[c]] == t.children[c].tag
              && Rep(t.children[c])
  {
    assert Kids(t.children).Keys == t.children.Keys;
  }

  lemma ExtHeldBelow(t: Tree<Node>)
    requires t.Ext? && Rep(t)
    ensures Rep(t.next)
  {
  }

  lemma LeafLength(t: Tree<Node>, n: nat)
    requires t.Leaf? && Canonical(t, n)
    ensures |t.key| == n
  {
  }

  lemma BranchLength(t: Tree<Node>, n: nat)
    requires t.Branch? && Canonical(t, n)
    ensures n > 0
  {
  }

  lemma ExtLength(t: Tree<Node>, n: nat)
    requires t.Ext? && Canonical(t, n)
    ensures |t.key| <= n
  {
  }

  lemma TopIs(t: Tree<Node>)
    ensures Plug(Top, t) == t && Path<Node>(Top) == []
  {
  }

  lemma InBranchIs(ctx: Ctx<Node>, t: Tree<Node>, c: Nibble)
    requires t.Branch? && c in t.children
    ensures var down := InBranch(t.tag, c, t.children - {c}, ctx);
            Plug(down, t.children[c]) == Plug(ctx, t) && Path(down) == Path(ctx) + [c]
  {
    assert (t.children - {c})[c := t.children[c]] == t.children;
  }

  lemma InExtIs(ctx: Ctx<Node>, t: Tree<Node>)
    requires t.Ext?
    ensures var down := InExt(t.tag, t.key, ctx);
            Plug(down, t.next) == Plug(ctx, t) && Path(down) == Path(ctx) + t.key
  {
  }

  lemma {:induction false} PlugRoot(ctx: Ctx<Node>, s: Tree<Node>, t: Tree<Node>)
    requires s.tag == t.tag
    ensures Plug(ctx, s).tag == Plug(ctx, t).tag
  {
    match ctx
    case Top =>
    case InExt(n, key, up) => PlugRoot(up, Ext(n, key, s), Ext(n, key, t));
    case InBranch(n, c, rest, up) => PlugRoot(up, Branch(n, rest[c := s]), Branch(n, rest[c := t]));
  }

  lemma StoresUpdated(s: Tree<Node>, t: Tree<Node>, contents: map<seq<Byte>, Value>, key: seq<Byte>, v: Value)
    requires Stores(Some(s), contents) && Updated(s, t, Nibbles(key), v)
    ensures Stores(Some(t), contents[key := v])
  {
    forall k: seq<Byte>
      ensures Stored(Some(t), Nibbles(k)) ==
              if k in contents[key := v] then Some(contents[key := v][k]) else None
    {
      assert Stored(Some(s), Nibbles(k)) == if k in contents then Some(contents[k]) else None;
      if Nibbles(k) == Nibbles(key) { NibblesInjective(k, key); }
    }
  }

  lemma FirstStored(t: Tree<Node>, contents: map<seq<Byte>, Value>, key: seq<Byte>)
    requires t.Leaf? && t.key == Nibbles(key) && Stores(None, contents)
    ensures Stores(Some(t), contents[key := t.value])
  {
    forall k: seq<Byte>
      ensures Stored(Some(t), Nibbles(k)) ==
              if k in contents[key := t.value] then Some(contents[key := t.value][k]) else None
    {
      assert Stored(None, Nibbles(k)) == None && k !in contents;
      if Nibbles(k) == Nibbles(key) { NibblesInjective(k, key); }
    }
  }

  lemma StoredSome(tree: Option<Tree<Node>>, contents: map<seq<Byte>, Value>, key: seq<Byte>)
    requires Stores(tree, contents) && key in contents
    ensures tree.Some? && Lookup(tree.value, Nibbles(key)).Some?
  {
    assert Stored(tree, Nibbles(key)) == Some(contents[key]);
  }

  lemma StoresRemoved(s: Tree<Node>, r: Option<Tree<Node>>, contents: map<seq<Byte>, Value>, key: seq<Byte>)
    requires Stores(Some(s), contents) && Removed(s, r, Nibbles(key))
    ensures Stores(r, contents - {key})
  {
    forall k: seq<Byte>
      ensures Stored(r, Nibbles(k)) ==
              if k in contents - {key} then Some((contents - {key})[k]) else None
    {
      assert Stored(Some(s), Nibbles(k)) == if k in contents then Some(contents[k]) else None;
      if Nibbles(k) == Nibbles(key) { NibblesInjective(k, key); }
    }
  }

  // ---------------------------------------------------------------------------
  // Histories

  datatype Op = PutOp(key: seq<Byte>, value: Value) | DeleteOp(key: seq<Byte>)

  function Applied(m: map<seq<Byte>, Value>, op: Op): map<seq<Byte>, Value> {
    match op
    case PutOp(key, value) => m[key := value]
    case DeleteOp(key) => m - {key}
  }

  /** The map that a history of operations leaves behind. */
  function Outcome(ops: seq<Op>): map<seq<Byte>, Value> {
    if ops == [] then map[] else Applied(Outcome(ops[..|ops| - 1]), ops[|ops| - 1])
  }

  /** The trees two tries hold, with neither the objects nor the order in which
      branches store their children. */
  ghost predicate SameTree(a: Option<Tree<Node>>, b: Option<Tree<Node>>) {
    if a.Some? && b.Some? then Erase(a.value) == Erase(b.value) else a == b == None
  }

  /** A trie after a history of puts and deletes holds exactly the map the history
      describes; the same map, by CanonicalForm, always means the same tree. */
  method Replay(ghost keyLen: nat, ops: seq<Op>) returns (t: Trie)
    requires forall i :: 0 <= i < |ops| && ops[i].PutOp? ==> |ops[i].key| == keyLen
    ensures fresh(t) && t.Valid() && t.keyLen == keyLen && t.contents == Outcome(ops)
  {
    hide *;
    t := new Trie(keyLen);
    NoOps();
    for i := 0 to |ops|
      invariant fresh(t) && forall o :: o in t.Objects() ==> fresh(o)
      invariant t.Valid() && t.keyLen == keyLen && t.contents == Outcome(ops[..i])
    {
      OneMoreOp(ops[..i + 1], ops[..i], ops[i]);
      match ops[i] {
        case PutOp(key, value) => t.Put(key, value);
        case DeleteOp(key) => var ok := t.Delete(key);
      }
    }
    assert ops[..|ops|] == ops;
  }

  lemma NoOps()
    ensures Outcome([]) == map[]
  {
  }

  lemma OneMoreOp(ops: seq<Op>, front: seq<Op>, op: Op)
    requires ops == front + [op]
    ensures Outcome(ops) == match op case PutOp(key, value) => Outcome(front)[key := value]
                                     case DeleteOp(key) => Outcome(front) - {key}
  {
    assert ops[..|ops| - 1] == front;
  }

  lemma StoredAlike(s: Option<Tree<Node>>, t: Option<Tree<Node>>, contents: map<seq<Byte>, Value>,
                    keyLen: nat, k: Key)
    requires Stores(s, contents) && Stores(t, contents)
    requires Stored(s, k).Some? && Canonical(s.value, 2 * keyLen)
    ensures Stored(t, k) == Stored(s, k)
  {
    LookupLength(s.value, 2 * keyLen, k);
    var bs := NibblesSurjective(k);
    assert Stored(s, Nibbles(bs)) == Stored(t, Nibbles(bs));
  }

  /** Two tries that store the same map are the same tree. */
  lemma CanonicalForm(s: Option<Tree<Node>>, t: Option<Tree<Node>>, contents: map<seq<Byte>, Value>,
                      keyLen: nat)
    requires Stores(s, contents) && Stores(t, contents)
    requires s.Some? ==> Canonical(s.value, 2 * keyLen)
    requires t.Some? ==> Canonical(t.value, 2 * keyLen)
    ensures SameTree(s, t)
  {
    forall k: Key ensures Stored(s, k) == Stored(t, k) {
      if Stored(s, k).Some? { StoredAlike(s, t, contents, keyLen, k); }
      if Stored(t, k).Some? { StoredAlike(t, s, contents, keyLen, k); }
    }
    if s.Some? { var found := Stored(s, AnyKey(s.value, 2 * keyLen)); }
    if t.Some? { var found := Stored(t, AnyKey(t.value, 2 * keyLen)); }
    if s.Some? && t.Some? {
      forall k: Key ensures Lookup(s.value, k) == Lookup(t.value, k) {
        assert Stored(s, k) == Stored(t, k);
      }
      CanonicalUnique(s.value, t.value, 2 * keyLen);
    }
  }

  /** Putting a key the trie does not store and deleting it again restores the tree. */
  method PutThenDelete(t: Trie, key: seq<Byte>, v: Value)
    requires t.Valid() && |key| == t.keyLen && key !in t.contents
    modifies t, t.Objects()
    ensures t.Valid() && t.contents == old(t.contents) && SameTree(t.tree, old(t.tree))
  {
    hide *;
    TrieParts(t);
    t.Put(key, v);
    var ok := t.Delete(key);
    TrieParts(t);
    assert t.contents == old(t.contents);
    CanonicalForm(t.tree, old(t.tree), t.contents, t.keyLen);
  }
}
