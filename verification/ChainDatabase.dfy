/** Pushing blocks: extending the chain, and switching to a longer branch with
    every partial change unwound on failure.
    Models _push_block and pop_block of libraries/chain/db_block.cpp on top of
    the undo database and the fork database. */
module Blocks {
  import opened Options
  import opened UndoStates
  import opened UndoSpec
  import opened ForkDatabase

  /// The only object of the chain the model looks into is the dynamic global
  /// property object, which names the head block.
  datatype Value = Dynamic(head: BlockId) | Other(content: int)

  const HEAD: ObjectId := ObjectId(0, 0)

  function HeadOf(db: Db<Value>): BlockId {
    if HEAD in db.objects && db.objects[HEAD].Dynamic? then db.objects[HEAD].head else ZERO
  }

  datatype Change =
    | Create(index: nat, v: Value)
    | Modify(id: ObjectId, v: Value)
    | Remove(id: ObjectId)

  /// What executing a block's contents does: changes made so far, and whether
  /// it ran to its end or threw.
  datatype Execution = Execution(changes: seq<Change>, ok: bool)

  type Executor = (Db<Value>, Block) -> Execution

  function Changed(db: Db<Value>, c: Change): Db<Value> {
    match c
    case Create(index, v) => if index in db.nextIds then CreateObject(db, index, v) else db
    case Modify(id, v) => if id in db.objects then db.(objects := db.objects[id := v]) else db
    case Remove(id) => if id in db.objects then db.(objects := db.objects - {id}) else db
  }

  function AllChanged(db: Db<Value>, cs: seq<Change>): Db<Value> {
    if cs == [] then db else Changed(AllChanged(db, cs[..|cs| - 1]), cs[|cs| - 1])
  }

  /// apply_block as a partial function: the header must name the head block as
  /// its parent, the contents must execute, and the block becomes the head.
  function Applied(x: Executor, db: Db<Value>, b: Block): Option<Db<Value>> {
    if HeadOf(db) != b.previous then None
    else
      var e := x(db, b);
      var db' := AllChanged(db, e.changes);
      if e.ok && HEAD in db'.objects then Some(db'.(objects := db'.objects[HEAD := Dynamic(b.id)])) else None
  }

  lemma AppliedHead(x: Executor, db: Db<Value>, b: Block)
    requires Applied(x, db, b).Some?
    ensures HeadOf(db) == b.previous && HeadOf(Applied(x, db, b).value) == b.id
  {
  }

  /// Applying a branch from its oldest block, which is its last item, upward.
  function Replayed(x: Executor, db: Db<Value>, p: seq<ForkItem>): Option<Db<Value>> {
    if p == [] then Some(db)
    else
      var below :- Replayed(x, db, p[1..]);
      Applied(x, below, p[0].block)
  }

  /// The database after `k` rollbacks.
  function StateAt(v: Spec<Value>, k: nat): Db<Value>
    requires k <= |v.snapshots|
  {
    if k == 0 then v.db else v.snapshots[|v.snapshots| - k]
  }

  lemma ReplayedHead(x: Executor, db: Db<Value>, p: seq<ForkItem>)
    requires p != [] && Replayed(x, db, p).Some?
    ensures HeadOf(Replayed(x, db, p).value) == p[0].block.id
  {
    AppliedHead(x, Replayed(x, db, p[1..]).value, p[0].block);
  }

  lemma ReplayStep(x: Executor, base: Db<Value>, p: seq<ForkItem>, i: nat, db: Db<Value>)
    requires 0 < i <= |p| && Replayed(x, base, p[i..]) == Some(db)
    ensures Replayed(x, base, p[i - 1..]) == Applied(x, db, p[i - 1].block)
  {
    assert p[i - 1..][1..] == p[i..];
  }

  /// `v` after `k` rollbacks.
  function Popped(v: Spec<Value>, k: nat): Spec<Value>
    requires k <= |v.snapshots|
  {
    v.(db := StateAt(v, k), snapshots := v.snapshots[..|v.snapshots| - k])
  }

  lemma PoppedNone(v: Spec<Value>)
    ensures Popped(v, 0) == v
  {
    assert v.snapshots[..|v.snapshots|] == v.snapshots;
  }

  lemma PoppedStep(v: Spec<Value>, k: nat)
    requires k < |v.snapshots| && !v.disabled
    ensures Popped(v, k).Restore() == Popped(v, k + 1)
  {
    var s := v.snapshots[..|v.snapshots| - k];
    assert s[..|s| - 1] == v.snapshots[..|v.snapshots| - (k + 1)];
  }

  /// Each block of the history turned the copy kept for it into the next one.
  ghost predicate Explains(x: Executor, history: seq<Block>, v: Spec<Value>) {
    && |history| == |v.snapshots|
    && forall k :: 0 < k <= |history| ==>
         Applied(x, StateAt(v, k), history[|history| - k]) == Some(StateAt(v, k - 1))
  }

  lemma ExplainsPush(x: Executor, history: seq<Block>, v: Spec<Value>, n: nat, b: Block, db: Db<Value>)
    requires Explains(x, history, v) && n <= |history| && Applied(x, v.db, b) == Some(db)
    ensures Explains(x, history[n..] + [b], v.(db := db, snapshots := v.snapshots[n..] + [v.db]))
  {
    var h, v' := history[n..] + [b], v.(db := db, snapshots := v.snapshots[n..] + [v.db]);
    forall k | 0 < k <= |h| ensures Applied(x, StateAt(v', k), h[|h| - k]) == Some(StateAt(v', k - 1)) {
      if k > 1 {
        assert StateAt(v', k) == StateAt(v, k - 1) && StateAt(v', k - 1) == StateAt(v, k - 2);
        assert h[|h| - k] == history[|history| - (k - 1)];
      }
    }
  }

  /// What a committed block leaves: its result, and a copy of what was before.
  function Pushed(v: Spec<Value>, db: Db<Value>): Spec<Value> {
    v.(db := db, snapshots := v.snapshots[v.Excess()..] + [v.db])
  }

  lemma UndoneStart(v: Spec<Value>, db: Db<Value>)
    requires !v.disabled && v.active == 0
    ensures v.Start(false).(db := db).Undo() == v.(snapshots := v.snapshots[v.Excess()..])
  {
    var s := v.snapshots[v.Excess()..];
    assert (s + [v.db])[..|s|] == s;
  }

  lemma ExplainsPop(x: Executor, history: seq<Block>, v: Spec<Value>)
    requires Explains(x, history, v) && history != []
    ensures Explains(x, history[..|history| - 1], v.Restore())
  {
    var h, v' := history[..|history| - 1], v.Restore();
    forall k | 0 < k <= |h| ensures Applied(x, StateAt(v', k), h[|h| - k]) == Some(StateAt(v', k - 1)) {
      assert StateAt(v', k) == StateAt(v, k + 1) && StateAt(v', k - 1) == StateAt(v, k);
      assert h[|h| - k] == history[|history| - (k + 1)];
    }
  }

  lemma ExplainsTrim(x: Executor, history: seq<Block>, v: Spec<Value>, n: nat)
    requires Explains(x, history, v) && n <= |history|
    ensures Explains(x, history[n..], v.(snapshots := v.snapshots[n..]))
  {
    var h, v' := history[n..], v.(snapshots := v.snapshots[n..]);
    forall k | 0 < k <= |h| ensures Applied(x, StateAt(v', k), h[|h| - k]) == Some(StateAt(v', k - 1)) {
      assert StateAt(v', k) == StateAt(v, k) && StateAt(v', k - 1) == StateAt(v, k - 1);
      assert h[|h| - k] == history[|history| - k];
    }
  }

  /** Going back along the current branch, the recorded blocks are the branch's
      blocks, and rolling back over all of it ends at the fork point. */
  lemma HistoryFollowsBranch(x: Executor, history: seq<Block>, v: Spec<Value>, q: seq<ForkItem>,
                             blockOf: BlockId -> Block, k: nat)
    requires Explains(x, history, v) && IsPath(q) && k <= |q| && k <= |history|
    requires forall b <- history :: b == blockOf(b.id)
    requires forall i :: 0 <= i < |q| ==> q[i].block == blockOf(q[i].block.id) && Linked(q[i])
    requires HeadOf(v.db) == q[0].block.id
    ensures HeadOf(StateAt(v, k)) == if k < |q| then q[k].block.id else Last(q).block.previous
    ensures k > 0 ==> history[|history| - k] == q[k - 1].block
  {
    if k > 0 {
      HistoryFollowsBranch(x, history, v, q, blockOf, k - 1);
      var b := history[|history| - k];
      assert b in history;
      AppliedHead(x, StateAt(v, k), b);
      if k < |q| {
        assert q[k - 1].prev == q[k];
      }
    }
  }

  /// `q` leads from the head down through blocks that are all in the history.
  ghost predicate OldBranch(x: Executor, history: seq<Block>, v: Spec<Value>, q: seq<ForkItem>,
                            blockOf: BlockId -> Block)
  {
    && Explains(x, history, v) && IsPath(q) && |q| <= |history| && HeadOf(v.db) == q[0].block.id
    && (forall b <- history :: b == blockOf(b.id))
    && (forall i :: 0 <= i < |q| ==> q[i].block == blockOf(q[i].block.id) && Linked(q[i]))
  }

  /** Re-applying the current branch from its fork point rebuilds, block by block,
      the states that were recorded when it was first applied. */
  lemma {:induction false} BranchReplays(x: Executor, history: seq<Block>, v: Spec<Value>, q: seq<ForkItem>,
                                         blockOf: BlockId -> Block, j: nat)
    requires OldBranch(x, history, v, q, blockOf) && j <= |q|
    ensures Replayed(x, StateAt(v, |q|), q[j..]) == Some(StateAt(v, j))
    ensures j > 0 ==> Applied(x, StateAt(v, j), q[j - 1].block) == Some(StateAt(v, j - 1))
    decreases |q| - j
  {
    HistoryFollowsBranch(x, history, v, q, blockOf, j);
    if j < |q| {
      BranchReplays(x, history, v, q, blockOf, j + 1);
      ReplayStep(x, StateAt(v, |q|), q, j + 1, StateAt(v, j + 1));
    }
  }
}

module ChainDatabase {
  import opened Options
  import opened Sequences
  import opened UndoStates
  import opened UndoSpec
  import opened UndoDatabase
  import opened ForkDatabase
  import opened Blocks

  datatype PushResult =
    | Refused           // the fork database does not accept the block
    | NotLonger         // kept on a side branch
    | Extended          // applied on top of the head
    | ApplyFailed       // would extend the head but does not apply
    | Switched          // the longer branch was applied
    | SwitchFailed      // a block of the longer branch does not apply
    | BranchUnavailable // an item needed to compute the branches is gone
    | OutOfHistory      // an undo state needed to switch is gone

  class Database {
    const undo: UndoDatabase<Value>
    const fork: ForkDatabase
    const execute: Executor
    /// The blocks whose states are on the undo stack.
    ghost var history: seq<Block>

    /// The undo stack holds the states before the blocks of the history.
    ghost predicate Sound()
      reads this, undo, fork
    {
      && (undo as object) != (fork as object) && (this as object) != (fork as object)
      && undo.Valid() && !undo.disabled && undo.activeSessions == 0
      && fork.Valid()
      && Explains(execute, history, undo.View())
      && forall b <- history :: b == fork.blockOf(b.id)
    }

    function Head(): BlockId
      reads undo
    {
      HeadOf(undo.Db())
    }

    /// The fork database's tip is the head block, and nothing is above it.
    ghost predicate Valid()
      reads this, undo, fork
    {
      && Sound()
      && fork.maxSize >= 1
      && (if fork.head == null then Head() == ZERO else fork.head.block.id == Head())
      && forall id <- fork.index :: id.num <= Head().num
    }

    /// Genesis: recording is off while the first objects are created.
    constructor (registered: set<nat>, execute: Executor, ghost blockOf: BlockId -> Block)
      requires 0 in registered
      ensures Valid() && fresh(undo) && fresh(fork)
      ensures fork.head == null && history == [] && fork.blockOf == blockOf && this.execute == execute
    {
      undo := new UndoDatabase(registered);
      fork := new ForkDatabase(blockOf);
      this.execute := execute;
      history := [];
      new;
      undo.Disable();
      var head := undo.Create(0, Dynamic(ZERO));
      undo.Enable();
      assert |undo.View().snapshots| == 0;
    }

    // ----------------------------------------------------------------
    // One block

    method RunChanges(cs: seq<Change>)
      requires undo.Valid() && !undo.disabled && undo.stack != []
      modifies undo
      ensures undo.Valid() && undo.View() == old(undo.View()).(db := AllChanged(old(undo.Db()), cs))
    {
      var i := 0;
      while i < |cs|
        invariant 0 <= i <= |cs|
        invariant undo.Valid() && undo.View() == old(undo.View()).(db := AllChanged(old(undo.Db()), cs[..i]))
      {
        assert |undo.View().snapshots| == |undo.stack|;
        match cs[i] {
          case Create(index, v) => var _ := undo.Create(index, v);
          case Modify(id, v) => var _ := undo.Modify(id, v);
          case Remove(id) => var _ := undo.Remove(id);
        }
        assert cs[..i + 1][..i] == cs[..i];
        i := i + 1;
      }
      assert cs[..i] == cs;
    }

    /// apply_block inside an open session; leaves partial changes on failure.
    method ExecuteBlock(b: Block) returns (ok: bool)
      requires undo.Valid() && !undo.disabled && undo.stack != []
      modifies undo
      ensures undo.Valid() && undo.View() == old(undo.View()).(db := undo.Db())
      ensures ok == Applied(execute, old(undo.Db()), b).Some?
      ensures ok ==> Some(undo.Db()) == Applied(execute, old(undo.Db()), b)
    {
      if HeadOf(undo.Db()) != b.previous {
        return false;
      }
      var e := execute(undo.Db(), b);
      RunChanges(e.changes);
      if !e.ok {
        return false;
      }
      assert |undo.View().snapshots| == |undo.stack|;
      ok := undo.Modify(HEAD, Dynamic(b.id));
    }

    /// Committed when the block applies, undone when it throws half-way.
    method TryBlock(b: Block) returns (ok: bool)
      requires undo.Valid() && !undo.disabled && undo.activeSessions == 0
      modifies undo
      ensures undo.Valid() && ok == Applied(execute, old(undo.Db()), b).Some?
      ensures var v := old(undo.View());
        undo.View() == if ok then Pushed(v, Applied(execute, v.db, b).value) else v.(snapshots := v.snapshots[v.Excess()..])
    {
      ghost var v := undo.View();
      var _, _ := undo.StartUndoSession(false);
      assert |undo.View().snapshots| == |undo.stack|;
      ok := ExecuteBlock(b);
      assert undo.View() == v.Start(false).(db := undo.Db());
      assert |undo.View().snapshots| == |undo.stack|;
      if ok {
        var _ := undo.Commit();
      } else {
        var _ := undo.Undo();
        UndoneStart(v, undo.Db());
      }
    }

    /** Applies a block in an undo session of its own. */
    method ApplyBlock(b: Block) returns (ok: bool)
      requires Sound() && b == fork.blockOf(b.id)
      modifies this, undo
      ensures Sound()
      ensures ok == Applied(execute, old(undo.Db()), b).Some?
      ensures var v := old(undo.View());
        && undo.View() == (if ok then Pushed(v, Applied(execute, v.db, b).value) else v.(snapshots := v.snapshots[v.Excess()..]))
        && history == old(history)[v.Excess()..] + (if ok then [b] else [])
    {
      hide StackRecords, Snapshots, Applied, ForkDatabase.Good;
      ghost var v := undo.View();
      ok := TryBlock(b);
      if ok {
        ExplainsPush(execute, history, v, v.Excess(), b, undo.Db());
        history := history[v.Excess()..] + [b];
      } else {
        ExplainsTrim(execute, history, v, v.Excess());
        history := history[v.Excess()..] + [];
      }
    }

    // ----------------------------------------------------------------
    // Popping and switching

    /** Removes the head block and undoes its changes.  The tip of the fork
        database follows only when it is the head block. */
    method PopBlock() returns (ok: bool)
      requires Sound()
      modifies this, undo, fork`head
      ensures Sound() && undo.maxSize == old(undo.maxSize)
      ensures ok <==>
        && old(fork.head != null && undo.stack != [])
        && old(if fork.head.block.id == Head() then fork.Lock(fork.head) != null else Head() in fork.index)
      ensures ok ==> undo.View() == old(undo.View()).Restore()
      ensures !ok ==> undo.View() == old(undo.View())
      ensures old(fork.head != null && fork.head.block.id != Head()) ==> fork.head == old(fork.head)
      ensures old(fork.head != null && fork.head.block.id == Head()) ==>
        fork.head == if old(fork.Lock(fork.head)) != null then old(fork.Lock(fork.head)) else old(fork.head)
    {
      if fork.head == null {
        return false;
      }
      if fork.head.block.id == Head() {
        var popped := fork.PopBlock();
        if !popped {
          return false;
        }
      } else if Head() !in fork.index {
        return false;
      }
      assert |undo.View().snapshots| == |undo.stack|;
      ok := undo.PopCommit();
      if ok {
        ExplainsPop(execute, history, old(undo.View()));
        history := history[..|history| - 1];
      }
    }

    /** Pops blocks until `target` is the head.  `q` is the branch being popped. */
    method PopTo(target: BlockId, ghost q: seq<ForkItem>) returns (ok: bool)
      requires Sound() && Poppable(q, target)
      modifies this, undo, fork`head
      ensures Sound() && fork.head == old(fork.head) && undo.maxSize == old(undo.maxSize)
      ensures |q| <= old(|undo.stack|) ==> ok
      ensures ok ==> Head() == target
      ensures ok ==> |q| <= |old(history)| == |old(undo.View()).snapshots|
      ensures ok ==> undo.View() == Popped(old(undo.View()), |q|)
    {
      hide StackRecords, Snapshots, Applied, UndoDatabase.Valid;
      ghost var k := 0;
      ghost var v := undo.View();
      PoppedNone(v);
      while Head() != target
        invariant Sound() && fork.head == old(fork.head) && undo.maxSize == old(undo.maxSize)
        invariant 0 <= k <= |q| && k <= |old(history)| == |v.snapshots|
        invariant undo.View() == Popped(v, k)
        invariant Head() == if k < |q| then q[k].block.id else target
        decreases |q| - k
      {
        assert |Popped(v, k).snapshots| == |undo.stack|;
        ok := PopBlock();
        if !ok {
          return false;
        }
        PoppedStep(v, k);
        k := k + 1;
        HistoryFollowsBranch(execute, old(history), v, q, fork.blockOf, k);
      }
      return true;
    }

    /// The head is the tip of `q`, whose blocks are known and are not the tip of
    /// the fork database, and `q` hangs from `target`.
    ghost predicate Poppable(q: seq<ForkItem>, target: BlockId)
      reads this, undo, fork
    {
      && (if q == [] then Head() == target
          else IsPath(q) && Last(q).block.previous == target && Head() == q[0].block.id)
      && fork.head != null
      && forall i :: 0 <= i < |q| ==>
           && fork.Good(q[i]) && q[i].block.id in fork.index
           && q[i].block.id != fork.head.block.id && q[i].block.id.num > target.num
    }

    /** Applies a branch, oldest block first; `failed` is the position of the first
        block that does not apply, or -1. */
    method ApplyBranch(p: seq<ForkItem>) returns (failed: int)
      requires Sound()
      requires forall i :: 0 <= i < |p| ==> p[i].block == fork.blockOf(p[i].block.id)
      modifies this, undo
      ensures Sound() && -1 <= failed < |p|
      ensures undo.maxSize == old(undo.maxSize)
      ensures Replayed(execute, old(undo.Db()), p[failed + 1..]) == Some(undo.Db())
      ensures failed >= 0 ==> Applied(execute, undo.Db(), p[failed].block).None?
      ensures Stacked(execute, old(undo.View()), undo.View(), p[failed + 1..])
    {
      hide StackRecords, Snapshots, Explains, Applied, Replayed, Stacked, UndoDatabase.Valid, ForkDatabase.Good;
      var i := |p|;
      ghost var x, v := undo.Db(), undo.View();
      NothingReplayed(execute, v, p);
      while i > 0
        invariant 0 <= i <= |p| && Sound() && undo.maxSize == old(undo.maxSize)
        invariant Replayed(execute, x, p[i..]) == Some(undo.Db())
        invariant Stacked(execute, v, undo.View(), p[i..])
      {
        ghost var w := undo.View();
        ReplayStep(execute, x, p, i, w.db);
        var ok := ApplyBlock(p[i - 1].block);
        if !ok {
          TrimmedStacked(execute, v, w, p[i..]);
          return i - 1;
        }
        PushedStacked(execute, v, w, p, i, undo.Db());
        i := i - 1;
      }
      return -1;
    }

    // ----------------------------------------------------------------
    // Pushing

    /// The higher block `b` has just become the tip of the fork database.
    ghost predicate NewTip(b: Block)
      reads this, undo, fork
    {
      && Sound() && fork.maxSize >= 1
      && fork.head != null && fork.head.block == b && b.id.num > Head().num
      && b.id in fork.index && fork.index[b.id] == fork.head
      && forall id <- fork.index :: id == b.id || id.num <= Head().num
    }

    /** Switches to the branch that ends in the new tip: pops back to the fork
        point and applies the branch; when one of its blocks does not apply, forgets
        that block and its successors and restores the old branch. */
    method SwitchForks(b: Block)
      returns (r: PushResult, ghost p: seq<ForkItem>, ghost q: seq<ForkItem>, ghost bad: int)
      requires NewTip(b) && b.previous != Head()
      modifies this, undo, fork
      ensures Sound() && (r == Switched || r == SwitchFailed || r == BranchUnavailable || r == OutOfHistory)
      ensures r == Switched || r == SwitchFailed ==> Valid()
      ensures r != BranchUnavailable ==> IsSwitch(old(Head()), b, p, q)
      ensures r == BranchUnavailable ==>
        && undo.View() == old(undo.View()) && fork.index == old(fork.index) && b.id in fork.index
        && (Head() !in fork.index || !exists pw, qw :: fork.Meet(fork.index[b.id], fork.index[Head()], pw, qw))
      ensures r == OutOfHistory ==> |q| > old(|undo.stack|) || |p| - 1 > undo.maxSize
      ensures r == Switched ==>
        && fork.index == old(fork.index) && fork.head == old(fork.head) && Head() == b.id
        && |q| <= |old(undo.View()).snapshots|
        && Replayed(execute, StateAt(old(undo.View()), |q|), p) == Some(undo.Db())
      ensures r == SwitchFailed ==>
        && |q| <= |old(undo.View()).snapshots| && 0 <= bad < |p|
        && undo.Db() == old(undo.Db()) && fork.head != null && fork.head.block.id == Head()
        && (forall i :: 0 <= i <= bad ==> p[i].block.id !in fork.index)
        && (forall i :: bad < i < |p| ==> p[i].block.id in fork.index)
        && FailsAt(execute, StateAt(old(undo.View()), |q|), p, bad)
        && SameStates(old(undo.View()), undo.View())
    {
      hide StackRecords, Snapshots, Explains, Applied, Replayed, Stacked, SameStates, FailsAt, UndoDatabase.Valid;
      p, q, bad := [], [], -1;
      var branches := fork.FetchBranchFrom(b.id, Head());
      if branches.None? {
        r := BranchUnavailable;
        return;
      }
      var (first, second) := branches.value;
      p, q := first, second;
      TipBranches(b, p, q);
      r, bad := TryBranch(b, first, second);
      if r == SwitchFailed {
        RestStaysKnown(p, bad, old(fork.index));
      }
    }

    /// A branch to the new tip does not pass through the old head.
    lemma TipBranches(b: Block, p: seq<ForkItem>, q: seq<ForkItem>)
      requires NewTip(b) && b.previous != Head()
      requires AreBranches(p, q) && Head() in fork.index && p[0] == fork.index[b.id] && q[0] == fork.index[Head()]
      requires fork.IsLivePath(p) && fork.IsLivePath(q)
      ensures IsSwitch(Head(), b, p, q)
      ensures forall i :: 0 <= i < |p| ==> fork.Good(p[i]) && p[i].block.id in fork.index && p[i].block.id.num > Last(p).block.previous.num
      ensures forall i :: 0 <= i < |q| ==> fork.Good(q[i]) && q[i].block.id in fork.index && q[i].block.id.num > Last(q).block.previous.num
      ensures forall i :: 0 <= i < |q| ==> q[i].block.id != b.id
      ensures forall i, j :: 0 <= i < j < |p| ==> p[i].block.id != p[j].block.id
    {
      fork.PathGood(p);
      fork.PathGood(q);
      PathNumbers(p);
      PathNumbers(q);
      if |p| > 1 {
        assert p[0].prev == p[1];
      }
    }

    method TryBranch(b: Block, p: seq<ForkItem>, q: seq<ForkItem>) returns (r: PushResult, ghost bad: int)
      requires NewTip(b) && Known(p) && Known(q) && IsSwitch(Head(), b, p, q)
      requires forall i :: 0 <= i < |q| ==> q[i].block.id != b.id
      requires forall i, j :: 0 <= i < j < |p| ==> p[i].block.id != p[j].block.id
      modifies this, undo, fork
      ensures Sound() && (r == Switched || r == SwitchFailed || r == OutOfHistory) && fork.maxSize == old(fork.maxSize)
      ensures r == OutOfHistory ==> |q| > old(|undo.stack|) || |p| - 1 > undo.maxSize
      ensures r == Switched ==>
        && fork.index == old(fork.index) && fork.head == old(fork.head) && Head() == b.id
        && |q| <= |old(undo.View()).snapshots|
        && Replayed(execute, StateAt(old(undo.View()), |q|), p) == Some(undo.Db())
      ensures r == SwitchFailed ==>
        && |q| <= |old(undo.View()).snapshots| && 0 <= bad < |p|
        && undo.Db() == old(undo.Db()) && fork.head == q[0]
        && fork.index == old(fork.index) - Ids(p[..bad + 1])
        && FailsAt(execute, StateAt(old(undo.View()), |q|), p, bad)
        && SameStates(old(undo.View()), undo.View())
    {
      hide StackRecords, Snapshots, Explains, Applied, Replayed, Stacked, SameStates, Linked, UndoDatabase.Valid;
      bad := -1;
      ghost var v0, h0 := undo.View(), history;
      var target := q[|q| - 1].block.previous;
      var ok := PopTo(target, q);
      if !ok {
        r := OutOfHistory;
        return;
      }
      ghost var v1 := undo.View();
      var failed := ApplyBranch(p);
      bad := failed;
      if failed < 0 {
        FullSlice(p);
        ReplayedHead(execute, v1.db, p);
        r := Switched;
        return;
      }
      r := Recover(p, q, failed, v0, h0);
    }

    /// Forgets the failing block and its successors, and restores `q`.
    method Recover(p: seq<ForkItem>, q: seq<ForkItem>, failed: nat, ghost v0: Spec<Value>, ghost h0: seq<Block>)
      returns (r: PushResult)
      requires Sound() && Known(p) && Known(q) && Disjoint(p, q) && failed < |p|
      requires forall i, j :: 0 <= i < j < |p| ==> p[i].block.id != p[j].block.id
      requires |q| <= |v0.snapshots| && OldBranch(execute, h0, v0, q, fork.blockOf)
      requires Last(p).block.previous == Last(q).block.previous == HeadOf(StateAt(v0, |q|))
      requires Replayed(execute, StateAt(v0, |q|), p[failed + 1..]) == Some(undo.Db())
      requires Stacked(execute, Popped(v0, |q|), undo.View(), p[failed + 1..])
      modifies this, undo, fork
      ensures Sound() && fork.head == q[0] && (r == SwitchFailed || r == OutOfHistory)
      ensures fork.maxSize == old(fork.maxSize) && fork.index == old(fork.index) - Ids(p[..failed + 1])
      ensures r == OutOfHistory ==> |p| - 1 > undo.maxSize
      ensures r == SwitchFailed ==> undo.Db() == v0.db && SameStates(v0, undo.View())
    {
      hide StackRecords, Snapshots, Explains, Applied, Replayed, Stacked, OldBranch, Linked, UndoDatabase.Valid, SameStates, StateAt, Popped;
      RemoveRest(p, failed);
      assert fork.Good(q[0]);
      fork.SetHead(q[0]);
      RestStaysKnown(p, failed, old(fork.index));
      RestIsPoppable(p, q, failed, StateAt(v0, |q|));
      assert forall i :: 0 <= i < |q| ==> q[i].block == fork.blockOf(q[i].block.id);
      r := RestoreBranch(p[failed + 1..], q, v0, h0);
    }

    lemma RestIsPoppable(p: seq<ForkItem>, q: seq<ForkItem>, failed: nat, base: Db<Value>)
      requires IsPath(p) && failed < |p| && q != [] && fork.head == q[0] && Disjoint(p, q)
      requires HeadOf(base) == Last(p).block.previous
      requires Replayed(execute, base, p[failed + 1..]) == Some(undo.Db())
      requires forall i :: failed < i < |p| ==>
        fork.Good(p[i]) && p[i].block.id in fork.index && p[i].block.id.num > Last(p).block.previous.num
      ensures Poppable(p[failed + 1..], Last(p).block.previous)
    {
      var rest := p[failed + 1..];
      if rest != [] {
        forall i | 0 <= i < |rest| - 1 ensures rest[i].prev == rest[i + 1] {
          assert p[failed + 1 + i].prev == p[failed + 2 + i];
        }
        var below := Replayed(execute, base, rest[1..]).value;
        AppliedHead(execute, below, rest[0].block);
      }
    }

    /// Items the fork database knows, above the point their path hangs from.
    ghost predicate Known(p: seq<ForkItem>)
      reads fork
    {
      && IsPath(p)
      && forall i :: 0 <= i < |p| ==>
           fork.Good(p[i]) && p[i].block.id in fork.index && p[i].block.id.num > Last(p).block.previous.num
    }

    /// Forgets the failing block and everything built on it.
    method RemoveRest(p: seq<ForkItem>, failed: nat)
      requires fork.Valid() && failed < |p|
      modifies fork
      ensures fork.Valid() && fork.maxSize == old(fork.maxSize)
      ensures fork.index == old(fork.index) - Ids(p[..failed + 1])
    {
      var i := failed;
      while i >= 0
        invariant -1 <= i <= failed && fork.Valid() && fork.maxSize == old(fork.maxSize)
        invariant fork.index == old(fork.index) - Ids(p[i + 1..failed + 1])
      {
        fork.Remove(p[i].block.id);
        assert Ids(p[i..failed + 1]) == Ids(p[i + 1..failed + 1]) + {p[i].block.id} by {
          assert p[i..failed + 1] == [p[i]] + p[i + 1..failed + 1];
        }
        i := i - 1;
      }
    }

    /// Pops the blocks of `p` that did apply and applies `q` again.
    method RestoreBranch(p: seq<ForkItem>, q: seq<ForkItem>, ghost v0: Spec<Value>, ghost h0: seq<Block>)
      returns (r: PushResult)
      requires Sound() && q != [] && fork.head == q[0] && |q| <= |v0.snapshots|
      requires OldBranch(execute, h0, v0, q, fork.blockOf)
      requires forall i :: 0 <= i < |q| ==> q[i].block == fork.blockOf(q[i].block.id)
      requires Stacked(execute, Popped(v0, |q|), undo.View(), p)
      requires Poppable(p, Last(q).block.previous)
      modifies this, undo, fork`head
      ensures Sound() && fork.head == q[0] && (r == SwitchFailed || r == OutOfHistory)
      ensures r == OutOfHistory ==> |p| > undo.maxSize
      ensures r == SwitchFailed ==> undo.Db() == v0.db && SameStates(v0, undo.View())
    {
      hide StackRecords, Snapshots, Explains, Applied, Replayed, Stacked, OldBranch, Linked, ForkDatabase.Good, ForkDatabase.Hashed, UndoDatabase.Valid;
      ghost var v1, v2 := Popped(v0, |q|), undo.View();
      assert |v2.snapshots| == |undo.stack|;
      StackedSize(execute, v1, v2, p);
      var ok := PopTo(q[|q| - 1].block.previous, p);
      assert fork.head == q[0];
      if !ok {
        return OutOfHistory;
      }
      PopsBack(execute, v1, v2, p);
      Reapply(q, v0, h0);
      return SwitchFailed;
    }

    /// The old branch applies again, because it did before.
    method Reapply(q: seq<ForkItem>, ghost v0: Spec<Value>, ghost h0: seq<Block>)
      requires Sound() && |q| <= |v0.snapshots| && OldBranch(execute, h0, v0, q, fork.blockOf)
      requires forall i :: 0 <= i < |q| ==> q[i].block == fork.blockOf(q[i].block.id)
      requires undo.Db() == StateAt(v0, |q|) && IsSuffix(undo.View().snapshots, Popped(v0, |q|).snapshots)
      modifies this, undo
      ensures Sound() && undo.Db() == v0.db && SameStates(v0, undo.View()) && undo.maxSize == old(undo.maxSize)
    {
      hide SameStates, IsSuffix, StateAt, Popped;
      hide StackRecords, Snapshots, Explains, Applied, Replayed, Stacked, OldBranch, Linked, ForkDatabase.Good, ForkDatabase.Hashed, UndoDatabase.Valid;
      ghost var v3 := undo.View();
      var again := ApplyBranch(q);
      if again >= 0 {
        OldBranchApplies(execute, h0, v0, q, fork.blockOf, again, undo.Db());
      }
      FullSlice(q);
      RestoredStates(execute, h0, v0, v3, undo.View(), q, fork.blockOf);
    }

    /** Pushes a block.  A block on top of the head is applied or leaves no trace; a
        block that does not make its branch the longest is only remembered; a longer
        branch either replaces the current one completely or changes nothing but
        the fork database, which forgets the failing block and its successors. */
    method PushBlock(b: Block)
      returns (r: PushResult, ghost p: seq<ForkItem>, ghost q: seq<ForkItem>, ghost bad: int)
      requires Valid() && b.Valid() && b == fork.blockOf(b.id)
      modifies this, undo, fork
      ensures Sound()
      ensures r != BranchUnavailable && r != OutOfHistory ==> Valid()
      ensures r == Refused <==> !old(fork.Accepts(b))
      ensures r == Refused || r == NotLonger ==> undo.View() == old(undo.View())
      ensures r == NotLonger ==> b.id.num <= Head().num && b.id in fork.index
      ensures r == Extended ==> Applied(execute, old(undo.Db()), b) == Some(undo.Db())
      ensures r == ApplyFailed ==>
        && b.previous == Head() && Applied(execute, old(undo.Db()), b).None?
        && undo.Db() == old(undo.Db()) && b.id !in fork.index
      ensures r == Switched || r == SwitchFailed || r == OutOfHistory ==> IsSwitch(old(Head()), b, p, q)
      ensures r == OutOfHistory ==> |q| > old(|undo.stack|) || |p| - 1 > undo.maxSize
      ensures r == BranchUnavailable ==>
        && undo.View() == old(undo.View()) && b.id in fork.index
        && (Head() !in fork.index || !exists pw, qw :: fork.Meet(fork.index[b.id], fork.index[Head()], pw, qw))
      ensures r == Switched ==>
        && |q| <= |old(undo.View()).snapshots|
        && Replayed(execute, StateAt(old(undo.View()), |q|), p) == Some(undo.Db())
      ensures r == SwitchFailed ==>
        && |q| <= |old(undo.View()).snapshots| && 0 <= bad < |p|
        && undo.Db() == old(undo.Db()) && SameStates(old(undo.View()), undo.View())
        && FailsAt(execute, StateAt(old(undo.View()), |q|), p, bad)
        && (forall i :: 0 <= i <= bad ==> p[i].block.id !in fork.index)
        && (forall i :: bad < i < |p| ==> p[i].block.id in fork.index)
    {
      hide StackRecords, Snapshots, Explains, Applied, Replayed, Stacked, Linked, SameStates, FailsAt;
      p, q, bad := [], [], -1;
      var accepted := Remember(b);
      if !accepted {
        r := Refused;
        return;
      }
      var newHead := fork.head;
      if newHead.block.previous != Head() {
        if newHead.block.id.num <= Head().num {
          r := NotLonger;
          return;
        }
        r, p, q, bad := SwitchForks(b);
        return;
      }
      r := ExtendHead(b);
    }

    /// Hands the block to the fork database.
    method Remember(b: Block) returns (accepted: bool)
      requires Valid() && b.Valid() && b == fork.blockOf(b.id)
      modifies fork
      ensures Sound() && accepted == old(fork.Accepts(b)) && undo.View() == old(undo.View())
      ensures !accepted ==> Valid()
      ensures accepted ==> fork.head != null && b.id in fork.index
      ensures accepted && b.id.num <= Head().num ==>
        Valid() && fork.head.block.id == Head() && fork.head.block.previous != Head()
      ensures accepted && b.id.num > Head().num ==> NewTip(b) && (b.previous == Head() ==> RootedAtHead())
    {
      hide StackRecords, Snapshots, Explains;
      accepted := fork.PushBlock(b);
    }

    /// The parent of the tip is the head block and is known, unless there is none.
    ghost predicate RootedAtHead()
      reads undo, fork
      requires fork.head != null
    {
      if Head() == ZERO then fork.head.prev == null
      else fork.head.prev != null && fork.Indexed(fork.head.prev) && fork.head.prev.block.id == Head()
    }

    method ExtendHead(b: Block) returns (r: PushResult)
      requires NewTip(b) && b.previous == Head() && RootedAtHead() && b == fork.blockOf(b.id)
      modifies this, undo, fork
      ensures Valid() && (r == Extended || r == ApplyFailed)
      ensures r == Extended ==> Applied(execute, old(undo.Db()), b) == Some(undo.Db())
      ensures r == ApplyFailed ==>
        && b.previous == Head() && Applied(execute, old(undo.Db()), b).None?
        && undo.Db() == old(undo.Db()) && b.id !in fork.index
    {
      hide StackRecords, Snapshots, Explains;
      var ok := ApplyBlock(b);
      if ok {
        AppliedHead(execute, old(undo.Db()), b);
        return Extended;
      }
      fork.Remove(b.id);
      return ApplyFailed;
    }
  }

  lemma OldBranchApplies(x: Executor, h0: seq<Block>, v0: Spec<Value>, q: seq<ForkItem>,
                         blockOf: BlockId -> Block, i: nat, db: Db<Value>)
    requires OldBranch(x, h0, v0, q, blockOf) && i < |q| <= |v0.snapshots|
    requires Replayed(x, StateAt(v0, |q|), q[i + 1..]) == Some(db)
    ensures Applied(x, db, q[i].block).Some?
  {
    BranchReplays(x, h0, v0, q, blockOf, i + 1);
  }

  lemma StackedSize(x: Executor, v: Spec<Value>, w: Spec<Value>, p: seq<ForkItem>)
    requires Stacked(x, v, w, p)
    ensures |p| <= |w.snapshots| || w.maxSize <= |w.snapshots|
  {
  }

  lemma PopsBack(x: Executor, v: Spec<Value>, w: Spec<Value>, p: seq<ForkItem>)
    requires Stacked(x, v, w, p) && |p| <= |w.snapshots|
    ensures Popped(w, |p|).db == v.db && IsSuffix(Popped(w, |p|).snapshots, v.snapshots)
  {
    assert p[|p|..] == [];
  }

  lemma RestoredStates(x: Executor, h0: seq<Block>, v0: Spec<Value>, v3: Spec<Value>, v4: Spec<Value>,
                       q: seq<ForkItem>, blockOf: BlockId -> Block)
    requires OldBranch(x, h0, v0, q, blockOf) && |q| <= |v0.snapshots|
    requires v3.db == StateAt(v0, |q|) && IsSuffix(v3.snapshots, Popped(v0, |q|).snapshots)
    requires Stacked(x, v3, v4, q)
    ensures v4.db == v0.db && SameStates(v0, v4)
  {
    hide OldBranch, Replayed;
    forall k | 0 <= k <= |v4.snapshots| && k <= |q| ensures StateAt(v4, k) == StateAt(v0, k) {
      TopState(x, h0, v0, v3, v4, q, blockOf, k);
    }
    assert StateAt(v4, 0) == StateAt(v0, 0);
    if |q| <= |v4.snapshots| {
      DeeperStates(v0, v3, v4, |q|);
    }
  }

  lemma TopState(x: Executor, h0: seq<Block>, v0: Spec<Value>, v3: Spec<Value>, v4: Spec<Value>,
                 q: seq<ForkItem>, blockOf: BlockId -> Block, k: nat)
    requires OldBranch(x, h0, v0, q, blockOf) && |q| <= |v0.snapshots|
    requires v3.db == StateAt(v0, |q|) && Stacked(x, v3, v4, q) && k <= |q| && k <= |v4.snapshots|
    ensures StateAt(v4, k) == StateAt(v0, k)
  {
    hide OldBranch, Replayed;
    BranchReplays(x, h0, v0, q, blockOf, k);
  }

  lemma DeeperStates(v0: Spec<Value>, v3: Spec<Value>, v4: Spec<Value>, n: nat)
    requires n <= |v0.snapshots| && n <= |v4.snapshots|
    requires IsSuffix(v3.snapshots, v0.snapshots[..|v0.snapshots| - n])
    requires IsSuffix(v4.snapshots[..|v4.snapshots| - n], v3.snapshots)
    ensures |v4.snapshots| <= |v0.snapshots|
    ensures forall k :: n < k <= |v4.snapshots| ==> StateAt(v4, k) == StateAt(v0, k)
  {
    var a, b, c := v4.snapshots[..|v4.snapshots| - n], v3.snapshots, v0.snapshots[..|v0.snapshots| - n];
    forall k | n < k <= |v4.snapshots| ensures StateAt(v4, k) == StateAt(v0, k) {
      assert a[|v4.snapshots| - k] == b[|b| - |a| + |v4.snapshots| - k];
      assert b[|b| - |a| + |v4.snapshots| - k] == c[|c| - |b| + |b| - |a| + |v4.snapshots| - k];
    }
  }

  function Ids(p: seq<ForkItem>): set<BlockId> {
    set x | x in p :: x.block.id
  }

  lemma RestStaysKnown(p: seq<ForkItem>, failed: nat, index: map<BlockId, ForkItem>)
    requires failed < |p|
    requires forall i, j :: 0 <= i < j < |p| ==> p[i].block.id != p[j].block.id
    requires forall i :: 0 <= i < |p| ==> p[i].block.id in index
    ensures forall i :: failed < i < |p| ==> p[i].block.id in index - Ids(p[..failed + 1])
  {
  }

  /// The items above position `bad` apply, and the one at `bad` does not.
  ghost predicate FailsAt(x: Executor, base: Db<Value>, p: seq<ForkItem>, bad: int)
    requires 0 <= bad < |p|
  {
    var below := Replayed(x, base, p[bad + 1..]);
    below.Some? && Applied(x, below.value, p[bad].block).None?
  }

  /// Every state still recorded is the one recorded before.
  ghost predicate SameStates(v: Spec<Value>, w: Spec<Value>) {
    && |w.snapshots| <= |v.snapshots|
    && forall k :: 0 <= k <= |w.snapshots| ==> StateAt(w, k) == StateAt(v, k)
  }

  /// `p` leads from the block pushed, and `q` from the old head, to siblings.
  ghost predicate IsSwitch(head: BlockId, b: Block, p: seq<ForkItem>, q: seq<ForkItem>) {
    AreBranches(p, q) && Disjoint(p, q) && p[0].block == b && q[0].block.id == head
  }

  /// `w` is `v` with the items of `p` applied and one more copy for each, as far
  /// as trimming has kept them.
  ghost predicate Stacked(x: Executor, v: Spec<Value>, w: Spec<Value>, p: seq<ForkItem>) {
    && w.maxSize == v.maxSize
    && (|p| <= |w.snapshots| || w.maxSize <= |w.snapshots|)
    && (|p| <= |w.snapshots| ==> IsSuffix(w.snapshots[..|w.snapshots| - |p|], v.snapshots))
    && forall k :: 0 <= k <= |p| && k <= |w.snapshots| ==> Replayed(x, v.db, p[k..]) == Some(StateAt(w, k))
  }

  lemma NothingReplayed(x: Executor, v: Spec<Value>, p: seq<ForkItem>)
    ensures Replayed(x, v.db, p[|p|..]) == Some(v.db) && Stacked(x, v, v, p[|p|..])
  {
    assert v.snapshots[..|v.snapshots|] == v.snapshots;
  }

  lemma TrimmedStacked(x: Executor, v: Spec<Value>, w: Spec<Value>, p: seq<ForkItem>)
    requires Stacked(x, v, w, p)
    ensures Stacked(x, v, w.(snapshots := w.snapshots[w.Excess()..]), p)
  {
    hide Replayed;
    var e, n := w.Excess(), |w.snapshots| - |p|;
    var w' := w.(snapshots := w.snapshots[e..]);
    if |p| <= |w'.snapshots| {
      TakeOfDrop(w.snapshots, e, n);
      DropOfSuffix(w.snapshots[..n], v.snapshots, e);
    }
    assert forall k :: 0 <= k <= |w'.snapshots| ==> StateAt(w', k) == StateAt(w, k);
  }

  lemma PushedStacked(x: Executor, v: Spec<Value>, w: Spec<Value>, p: seq<ForkItem>, i: nat, db: Db<Value>)
    requires 0 < i <= |p| && Stacked(x, v, w, p[i..]) && Replayed(x, v.db, p[i - 1..]) == Some(db)
    ensures Stacked(x, v, Pushed(w, db), p[i - 1..])
  {
    hide Replayed;
    var e, n := w.Excess(), |w.snapshots| - |p[i..]|;
    var w' := Pushed(w, db);
    if |p[i..]| <= |w.snapshots| - e {
      SliceOfSuffix(w.snapshots, w.db, e, n);
      DropOfSuffix(w.snapshots[..n], v.snapshots, e);
    }
    forall k | 0 <= k <= |p[i - 1..]| && k <= |w'.snapshots|
      ensures Replayed(x, v.db, p[i - 1..][k..]) == Some(StateAt(w', k))
    {
      PushedState(x, v, w, p, i, db, k);
    }
  }

  lemma PushedState(x: Executor, v: Spec<Value>, w: Spec<Value>, p: seq<ForkItem>, i: nat, db: Db<Value>, k: nat)
    requires 0 < i <= |p| && Stacked(x, v, w, p[i..]) && Replayed(x, v.db, p[i - 1..]) == Some(db)
    requires k <= |p[i - 1..]| && k <= |Pushed(w, db).snapshots|
    ensures Replayed(x, v.db, p[i - 1..][k..]) == Some(StateAt(Pushed(w, db), k))
  {
    hide Replayed;
    FullSlice(p[i - 1..]);
    DropDrop(p, i - 1, k);
    if k > 0 {
      DropDrop(p, i, k - 1);
      assert StateAt(Pushed(w, db), k) == StateAt(w, k - 1);
    }
  }
}
