/** The tree of recent blocks with its longest tip.
    Models libraries/chain/fork_database.cpp. */
module ForkDatabase {
  import opened Options
  import opened Prices

  /// The number is the leading part of the id; the rest is the hash.
  datatype BlockId = BlockId(num: nat, hash: int)

  /// The id that stands for "no block".
  const ZERO: BlockId := BlockId(0, 0)

  datatype Block = Block(id: BlockId, previous: BlockId, content: int) {
    predicate Valid() { id.num == previous.num + 1 }
  }

  class ForkItem {
    const block: Block
    const prev: ForkItem? // a weak pointer: see ForkDatabase.Lock

    constructor (block: Block, prev: ForkItem?)
      ensures this.block == block && this.prev == prev
    {
      this.block, this.prev := block, prev;
    }
  }

  /// The item is linked to its parent, if at all, and so are its ancestors.
  ghost predicate Linked(x: ForkItem)
    decreases x.block.id.num
  {
    && x.block.Valid()
    && (x.prev != null ==> x.prev.block.id == x.block.previous && Linked(x.prev))
  }

  /// Each item is the parent of the one before it.
  ghost predicate IsPath(p: seq<ForkItem>) {
    && p != []
    && forall i :: 0 <= i < |p| - 1 ==> p[i].prev == p[i + 1]
  }

  function Last<T>(p: seq<T>): T
    requires p != []
  {
    p[|p| - 1]
  }

  ghost predicate Disjoint(p: seq<ForkItem>, q: seq<ForkItem>) {
    forall i, j :: 0 <= i < |p| && 0 <= j < |q| ==> p[i].block.id != q[j].block.id
  }

  /// Two ways down from two tips to siblings, or to one shared ancestor when a
  /// tip is an ancestor of the other.
  ghost predicate AreBranches(p: seq<ForkItem>, q: seq<ForkItem>) {
    && IsPath(p) && IsPath(q)
    && Last(p).block.previous == Last(q).block.previous
    && (Disjoint(p, q)
        || (&& Last(p).block.id == Last(q).block.id && (|p| == 1 || |q| == 1)
            && Disjoint(p[..|p| - 1], q) && Disjoint(p, q[..|q| - 1])))
  }

  class ForkDatabase {
    var index: map<BlockId, ForkItem>
    var head: ForkItem?
    var maxSize: nat
    /// A block id is a hash of the block, so it determines the block.
    ghost const blockOf: BlockId -> Block

    ghost predicate Good(x: ForkItem) {
      Linked(x) && Hashed(x)
    }

    ghost predicate Hashed(x: ForkItem)
      requires Linked(x)
      decreases x.block.id.num
    {
      x.block == blockOf(x.block.id) && (x.prev != null ==> Hashed(x.prev))
    }

    ghost predicate Valid()
      reads this
    {
      && (forall id <- index :: index[id].block.id == id && Good(index[id]))
      && (head != null ==> Good(head))
    }

    constructor (ghost blockOf: BlockId -> Block)
      ensures Valid() && index == map[] && head == null && maxSize == 1024 && this.blockOf == blockOf
    {
      index, head, maxSize := map[], null, 1024;
      this.blockOf := blockOf;
    }

    /// weak_ptr::lock: the parent while something still owns it.
    predicate Owned(x: ForkItem)
      reads this
    {
      Indexed(x) || head == x
    }

    predicate Indexed(x: ForkItem)
      reads this
    {
      x.block.id in index && index[x.block.id] == x
    }

    function Lock(x: ForkItem): ForkItem?
      reads this
    {
      if x.prev != null && Owned(x.prev) then x.prev else null
    }

    /// Blocks at or below this number are too old to be pushed.
    function OldestNum(): nat
      reads this
      requires head != null
    {
      if head.block.id.num > maxSize then head.block.id.num - maxSize else 0
    }

    /// The block is recent enough and its parent, if it needs one, is known.
    predicate Accepts(b: Block)
      reads this
    {
      head == null || (b.id.num > OldestNum() && (b.previous == ZERO || b.previous in index))
    }

    /** Adds a block; the tip moves only to a higher block, and then blocks that
        fell out of the window are forgotten. */
    method PushBlock(b: Block) returns (ok: bool)
      requires Valid() && b.Valid() && b == blockOf(b.id)
      modifies this
      ensures Valid() && ok == old(Accepts(b)) && maxSize == old(maxSize)
      ensures !ok ==> index == old(index) && head == old(head)
      ensures ok && old(head != null && b.id.num <= head.block.id.num) ==> head == old(head)
      ensures ok && old(head == null || b.id.num > head.block.id.num) ==> head != null && fresh(head) && head.block == b
      ensures ok ==> forall id :: id in index <==>
        (id in old(index) || id == b.id) && (old(head) != null && head != old(head) ==> id.num >= OldestNum())
      ensures ok ==> forall id <- index :: id in old(index) ==> index[id] == old(index[id])
      ensures ok && b.id in index && b.id !in old(index) ==>
        && index[b.id].block == b
        && index[b.id].prev == (if old(head) != null && b.previous != ZERO then old(index[b.previous]) else null)
        && (head != old(head) ==> head == index[b.id])
    {
      if head != null && b.id.num <= OldestNum() {
        return false;
      }
      var prev: ForkItem? := null;
      if head != null && b.previous != ZERO {
        if b.previous !in index {
          return false;
        }
        prev := index[b.previous];
      }
      var item := new ForkItem(b, prev);
      if b.id !in index {
        index := index[b.id := item];
      }
      if head == null {
        head := item;
      } else if b.id.num > head.block.id.num {
        head := item;
        Evict(OldestNum());
      }
      return true;
    }

    /// Forgets every block below `minNum`, lowest first.
    method Evict(minNum: nat)
      modifies this`index
      ensures forall id :: id in index <==> id in old(index) && id.num >= minNum
      ensures forall id <- index :: index[id] == old(index[id])
    {
      var low := set id | id in index && id.num < minNum;
      while low != {}
        invariant low == set id | id in index && id.num < minNum
        invariant index.Keys <= old(index.Keys)
        invariant forall id <- old(index) :: id.num >= minNum ==> id in index
        invariant forall id <- index :: index[id] == old(index[id])
        decreases |low|
      {
        var id :| id in low;
        ghost var before := low;
        index := index - {id};
        low := set k | k in index && k.num < minNum;
        assert low == before - {id};
      }
      forall id <- index ensures id.num >= minNum {
        assert id !in low;
      }
    }

    method SetMaxSize(s: nat)
      requires Valid()
      modifies this
      ensures Valid() && maxSize == s && head == old(head)
      ensures forall id :: id in index <==> id in old(index) && (head != null ==> id.num >= OldestNum())
      ensures forall id <- index :: index[id] == old(index[id])
    {
      maxSize := s;
      if head != null {
        Evict(OldestNum());
      }
    }

    method SetHead(h: ForkItem)
      requires Valid() && Good(h)
      modifies this`head
      ensures Valid() && head == h
    {
      head := h;
    }

    method PopBlock() returns (ok: bool)
      requires Valid()
      modifies this`head
      ensures Valid() && ok == old(head != null && Lock(head) != null)
      ensures head == if ok then old(Lock(head)) else old(head)
    {
      if head == null || Lock(head) == null {
        return false;
      }
      head := Lock(head);
      return true;
    }

    /** Forgets a block; when it was the tip, the tip becomes its parent, or none. */
    method Remove(id: BlockId)
      requires Valid()
      modifies this
      ensures Valid() && index == old(index) - {id} && maxSize == old(maxSize)
      ensures old(head == null || head.block.id != id) ==> head == old(head)
      ensures old(head != null && head.block.id == id) ==>
        head == if old(head.prev != null && Indexed(head.prev) && head.prev.block.id != id) then old(head.prev) else null
    {
      index := index - {id};
      if head != null && head.block.id == id {
        var popped := PopBlock();
        if !popped {
          head := null;
        }
      }
    }

    // ----------------------------------------------------------------
    // Branches

    /// A path every link of which can still be followed.
    ghost predicate IsLivePath(p: seq<ForkItem>)
      reads this
    {
      IsPath(p) && forall i :: 0 < i < |p| ==> Owned(p[i])
    }

    lemma {:induction false} PathGood(p: seq<ForkItem>)
      requires IsPath(p) && Good(p[0])
      ensures forall i :: 0 <= i < |p| ==> Good(p[i])
      decreases |p|
    {
      if |p| > 1 {
        assert p[0].prev == p[1];
        var rest := p[1..];
        forall i | 0 <= i < |rest| - 1 ensures rest[i].prev == rest[i + 1] {
          assert p[i + 1].prev == p[i + 2];
        }
        PathGood(rest);
        forall i | 1 <= i < |p| ensures Good(p[i]) {
          assert p[i] == rest[i - 1];
        }
      }
    }

    /// Live ways lead from both blocks down to siblings.
    ghost predicate Meet(a: ForkItem, b: ForkItem, p: seq<ForkItem>, q: seq<ForkItem>)
      reads this
    {
      && IsLivePath(p) && p[0] == a
      && IsLivePath(q) && q[0] == b
      && Last(p).block.previous == Last(q).block.previous
    }

    /** The branches from two blocks back to their most recent common ancestor.
        Succeeds whenever live ways to a common ancestor exist. */
    method FetchBranchFrom(first: BlockId, second: BlockId) returns (r: Option<(seq<ForkItem>, seq<ForkItem>)>)
      requires Valid()
      ensures r.Some? ==>
        var (p, q) := r.value;
        && AreBranches(p, q) && first in index && second in index
        && p[0] == index[first] && q[0] == index[second]
        && IsLivePath(p) && IsLivePath(q)
      ensures first !in index || second !in index ==> r.None?
      ensures first in index && second in index && (exists p, q :: Meet(index[first], index[second], p, q)) ==> r.Some?
    {
      if first !in index || second !in index {
        return None;
      }
      ghost var found := exists p, q :: Meet(index[first], index[second], p, q);
      ghost var pw: seq<ForkItem>, qw: seq<ForkItem> := [index[first]], [index[second]];
      if found {
        pw, qw :| Meet(index[first], index[second], pw, qw);
      }
      if found {
        PathNumbers(pw);
        PathNumbers(qw);
      }
      var a, p := Descend(index[first], index[second].block.id.num, pw, found);
      if a == null {
        return None;
      }
      var b, q := Descend(index[second], a.block.id.num, qw, found);
      if b == null {
        return None;
      }
      r := MeetAt(a, b, p, q, pw, qw, found);
    }

    /// Follows parents down to the given number; null when one is gone.
    method Descend(x: ForkItem, num: nat, ghost w: seq<ForkItem>, ghost found: bool)
      returns (a: ForkItem?, p: seq<ForkItem>)
      requires Valid() && Good(x)
      requires found ==> IsLivePath(w) && w[0] == x && Last(w).block.id.num <= num
      ensures a != null ==>
        && Good(a) && IsLivePath(p + [a]) && (p + [a])[0] == x
        && (if x.block.id.num > num then a.block.id.num == num else p == [])
        && Above(p, a)
      ensures found ==> a != null && |p| < |w| && w[|p|] == a
    {
      var cur: ForkItem := x;
      p := [];
      if found {
        PathNumbers(w);
      }
      while cur.block.id.num > num
        invariant Good(cur) && IsLivePath(p + [cur]) && (p + [cur])[0] == x
        invariant if x.block.id.num > num then cur.block.id.num >= num else p == []
        invariant Above(p, cur)
        invariant found ==> |p| < |w| && w[|p|] == cur
        decreases cur.block.id.num
      {
        assert found ==> w[|p|].prev == w[|p| + 1] && Owned(w[|p| + 1]);
        var parent := Lock(cur);
        if parent == null {
          return null, p;
        }
        p := p + [cur];
        cur := parent;
      }
      return cur, p;
    }

    /// Steps both sides down together until they are siblings.
    method MeetAt(a0: ForkItem, b0: ForkItem, p0: seq<ForkItem>, q0: seq<ForkItem>,
                  ghost pw: seq<ForkItem>, ghost qw: seq<ForkItem>, ghost found: bool)
      returns (r: Option<(seq<ForkItem>, seq<ForkItem>)>)
      requires Valid() && Good(a0) && Good(b0) && a0.block.id.num == b0.block.id.num
      requires IsLivePath(p0 + [a0]) && IsLivePath(q0 + [b0])
      requires p0 == [] || q0 == []
      requires Above(p0, a0) && Above(q0, b0)
      requires found ==> pw != [] && qw != [] && Meet(pw[0], qw[0], pw, qw) && Linked(pw[0]) && Linked(qw[0])
      requires found ==> |p0| < |pw| && pw[|p0|] == a0 && |q0| < |qw| && qw[|q0|] == b0
      ensures r.Some? ==>
        var (p, q) := r.value;
        AreBranches(p, q) && IsLivePath(p) && IsLivePath(q) && p[0] == (p0 + [a0])[0] && q[0] == (q0 + [b0])[0]
      ensures found ==> r.Some?
    {
      var a: ForkItem, b: ForkItem, p, q := a0, b0, p0, q0;
      if found {
        PathNumbers(pw);
        PathNumbers(qw);
      }
      while a.block.previous != b.block.previous
        invariant Good(a) && Good(b) && a.block.id.num == b.block.id.num
        invariant IsLivePath(p + [a]) && (p + [a])[0] == (p0 + [a0])[0]
        invariant IsLivePath(q + [b]) && (q + [b])[0] == (q0 + [b0])[0]
        invariant Above(p, a) && Above(q, b) && Disjoint(p, q)
        invariant a.block.id == b.block.id ==> p == [] || q == []
        invariant found ==> |p| < |pw| && pw[|p|] == a && |q| < |qw| && qw[|q|] == b
        decreases a.block.id.num
      {
        assert found ==> pw[|p|].prev == pw[|p| + 1] && Owned(pw[|p| + 1]);
        assert found ==> qw[|q|].prev == qw[|q| + 1] && Owned(qw[|q| + 1]);
        var a', b' := Lock(a), Lock(b);
        if a' == null || b' == null {
          return None;
        }
        p, q := p + [a], q + [b];
        a, b := a', b';
      }
      EndBranches(p, a, q, b);
      return Some((p + [a], q + [b]));
    }
  }

  ghost predicate Above(p: seq<ForkItem>, a: ForkItem) {
    forall i :: 0 <= i < |p| ==> p[i].block.id.num > a.block.id.num
  }

  lemma EndBranches(p: seq<ForkItem>, a: ForkItem, q: seq<ForkItem>, b: ForkItem)
    requires IsPath(p + [a]) && IsPath(q + [b])
    requires a.block.previous == b.block.previous && a.block.id.num == b.block.id.num
    requires Above(p, a) && Above(q, b) && Disjoint(p, q)
    requires a.block.id == b.block.id ==> p == [] || q == []
    ensures AreBranches(p + [a], q + [b])
  {
    assert (p + [a])[..|p|] == p && (q + [b])[..|q|] == q;
  }

  /** Numbers fall by one along a path. */
  lemma {:induction false} PathNumbers(p: seq<ForkItem>)
    requires IsPath(p) && Linked(p[0])
    ensures forall i :: 0 <= i < |p| ==> p[i].block.id.num + i == p[0].block.id.num && Linked(p[i])
    decreases |p|
  {
    if |p| > 1 {
      assert p[0].prev == p[1];
      var rest := p[1..];
      forall i | 0 <= i < |rest| - 1 ensures rest[i].prev == rest[i + 1] {
        assert p[i + 1].prev == p[i + 2];
      }
      PathNumbers(rest);
      forall i | 1 <= i < |p| ensures p[i].block.id.num + i == p[0].block.id.num && Linked(p[i]) {
        assert p[i] == rest[i - 1];
      }
    }
  }

  ghost predicate IsAncestor(x: ForkItem, y: ForkItem)
    requires Linked(y)
    decreases y.block.id.num
  {
    x == y || (y.prev != null && IsAncestor(x, y.prev))
  }

  /// Every ancestor not below the end of a path is on the path.
  lemma {:induction false} AncestorOnPath(x: ForkItem, p: seq<ForkItem>)
    requires IsPath(p) && Linked(p[0]) && IsAncestor(x, p[0])
    requires x.block.id.num >= Last(p).block.id.num
    ensures x in p
    decreases |p|
  {
    if x != p[0] {
      AncestorIsLower(x, p[0]);
      PathNumbers(p);
      assert |p| > 1 && p[0].prev == p[1];
      var rest := p[1..];
      forall i | 0 <= i < |rest| - 1 ensures rest[i].prev == rest[i + 1] {
        assert p[i + 1].prev == p[i + 2];
      }
      AncestorOnPath(x, rest);
    }
  }

  lemma {:induction false} AncestorIsLower(x: ForkItem, y: ForkItem)
    requires Linked(y) && IsAncestor(x, y) && x != y
    ensures x.block.id.num < y.block.id.num
    decreases y.block.id.num
  {
    if x != y.prev {
      AncestorIsLower(x, y.prev);
    }
  }

  /** The block both branches hang from is their most recent common ancestor: no
      ancestor shared by the two tips is above it, unless the branches end in one
      shared block. */
  lemma MostRecentCommonAncestor(p: seq<ForkItem>, q: seq<ForkItem>, x: ForkItem, y: ForkItem)
    requires AreBranches(p, q) && Linked(p[0]) && Linked(q[0])
    requires IsAncestor(x, p[0]) && IsAncestor(y, q[0]) && x.block.id == y.block.id
    ensures x.block.id.num <= Last(p).block.previous.num || x.block.id == Last(p).block.id == Last(q).block.id
  {
    PathNumbers(p);
    PathNumbers(q);
    if x.block.id.num > Last(p).block.previous.num {
      AncestorOnPath(x, p);
      AncestorOnPath(y, q);
      var i :| 0 <= i < |p| && p[i] == x;
      var j :| 0 <= j < |q| && q[j] == y;
    }
  }
}
