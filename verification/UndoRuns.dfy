/** What whole runs of the undo database promise: an undone session restores the
    database of its start, and committed states are popped last in, first out. */
module UndoRuns {
  import opened Options
  import opened Sequences
  import opened UndoStates
  import opened UndoSpec
  import opened UndoDatabase

  datatype Op<V> =
    | Create(index: nat, v: V)
    | Modify(id: ObjectId, v: V)
    | Remove(id: ObjectId)
    | Start
    | Undo
    | Merge
    | Commit
    | PopCommit
    | SetMaxSize(n: nat)

  function Step<V>(s: Spec<V>, op: Op<V>): Spec<V> {
    match op
    case Create(index, v) => s.Create(index, v)
    case Modify(id, v) => s.Modify(id, v)
    case Remove(id) => s.Remove(id)
    case Start => s.Start(false)
    case Undo => s.Undo()
    case Merge => s.Merge()
    case Commit => s.Commit()
    case PopCommit => s.PopCommit()
    case SetMaxSize(n) => s.(maxSize := n)
  }

  function Run<V>(s: Spec<V>, ops: seq<Op<V>>): Spec<V>
    decreases |ops|
  {
    if ops == [] then s else Run(Step(s, ops[0]), ops[1..])
  }

  /** Every interleaving of changes and sessions on the undo database gives what
      the same interleaving gives on full copies. */
  method Replay<V>(d: UndoDatabase<V>, ops: seq<Op<V>>)
    requires d.Valid() && !d.disabled
    modifies d
    ensures d.Valid() && !d.disabled && d.View() == Run(old(d.View()), ops)
  {
    var i := 0;
    while i < |ops|
      invariant 0 <= i <= |ops|
      invariant d.Valid() && !d.disabled
      invariant Run(d.View(), ops[i..]) == Run(old(d.View()), ops)
    {
      Apply(d, ops[i]);
      assert ops[i..][1..] == ops[i + 1..];
      i := i + 1;
    }
  }

  method Apply<V>(d: UndoDatabase<V>, op: Op<V>)
    requires d.Valid() && !d.disabled
    modifies d
    ensures d.Valid() && !d.disabled && d.View() == Step(old(d.View()), op)
  {
    match op {
      case Create(index, v) => var _ := d.Create(index, v);
      case Modify(id, v) => var _ := d.Modify(id, v);
      case Remove(id) => var _ := d.Remove(id);
      case Start => var _, _ := d.StartUndoSession(false);
      case Undo =>
        if d.activeSessions == 0 || d.stack != [] {
          var _ := d.Undo();
        }
      case Merge => var _ := d.Merge();
      case Commit => var _ := d.Commit();
      case PopCommit => var _ := d.PopCommit();
      case SetMaxSize(n) => d.SetMaxSize(n);
    }
  }

  // ------------------------------------------------------------------
  // Undoing a session

  function Commits<V>(ops: seq<Op<V>>): nat {
    if ops == [] then 0 else (if ops[0].Commit? then 1 else 0) + Commits(ops[1..])
  }

  /** The operations of a session opened when `base` sessions were active: it is
      not closed in between, and trimming spares its copy.  `c` counts the
      sessions committed inside it so far. */
  ghost predicate Inside<V>(s: Spec<V>, ops: seq<Op<V>>, base: nat, c: nat)
    decreases |ops|
  {
    ops == [] ||
    (var op := ops[0];
     && (op.Undo? || op.Merge? || op.Commit? ==> s.active > base + 1)
     && (op.Start? ==> s.active - base + c <= s.maxSize)
     && Inside(Step(s, op), ops[1..], base, c + if op.Commit? then 1 else 0))
  }

  /// The copy taken at the start of the session lies below one copy per session
  /// opened later, committed or not; further below are the older copies.
  ghost predicate Holds<V>(s: Spec<V>, start: Spec<V>, c: nat) {
    && !s.disabled && s.active > start.active
    && var p := |s.snapshots| - (s.active - start.active + c);
       && 0 <= p < |s.snapshots| && s.snapshots[p] == start.db
       && IsSuffix(s.snapshots[..p], start.snapshots)
  }

  lemma HoldsAtStart<V>(start: Spec<V>)
    requires !start.disabled
    ensures Holds(start.Start(false), start, 0)
  {
    var s := start.Start(false);
    assert s.snapshots[..|s.snapshots| - 1] == start.snapshots[start.Excess()..];
  }

  lemma StepHolds<V>(s: Spec<V>, start: Spec<V>, op: Op<V>, c: nat)
    requires Holds(s, start, c) && Inside(s, [op], start.active, c)
    ensures Holds(Step(s, op), start, c + if op.Commit? then 1 else 0)
  {
    var s' := Step(s, op);
    var p := |s.snapshots| - (s.active - start.active + c);
    match op {
      case Start =>
        var e := s.Excess();
        assert e <= p;
        SliceOfSuffix(s.snapshots, s.db, e, p);
      case Undo =>
        assert s'.snapshots[..p] == s.snapshots[..p];
      case Merge =>
        assert s'.snapshots[..p] == s.snapshots[..p];
      case _ =>
    }
  }

  lemma {:induction false} RunHolds<V>(s: Spec<V>, start: Spec<V>, ops: seq<Op<V>>, c: nat)
    requires Holds(s, start, c) && Inside(s, ops, start.active, c)
    ensures Holds(Run(s, ops), start, c + Commits(ops))
    decreases |ops|
  {
    if ops != [] {
      assert Inside(s, [ops[0]], start.active, c);
      StepHolds(s, start, ops[0], c);
      RunHolds(Step(s, ops[0]), start, ops[1..], c + if ops[0].Commit? then 1 else 0);
    }
  }

  /** Undoing a session restores exactly the objects and next ids of its start,
      whatever was created, modified, removed, nested, merged or undone inside it,
      as long as nothing inside it was committed. */
  lemma SessionUndone<V>(start: Spec<V>, ops: seq<Op<V>>)
    requires !start.disabled && Inside(start.Start(false), ops, start.active, 0)
    requires Run(start.Start(false), ops).active == start.active + 1 && Commits(ops) == 0
    ensures var e := Run(start.Start(false), ops).Undo();
            && e.db == start.db && e.active == start.active
            && IsSuffix(e.snapshots, start.snapshots)
  {
    HoldsAtStart(start);
    RunHolds(start.Start(false), start, ops, 0);
  }

  function Rollbacks<V>(s: Spec<V>, n: nat): Spec<V>
    requires n <= |s.snapshots|
    decreases n
  {
    if n == 0 then s else Rollbacks(s.Restore(), n - 1)
  }

  lemma {:induction false} RollbacksReach<V>(s: Spec<V>, n: nat)
    requires 0 < n <= |s.snapshots|
    ensures Rollbacks(s, n).db == s.snapshots[|s.snapshots| - n]
    decreases n
  {
    if n > 1 {
      RollbacksReach(s.Restore(), n - 1);
    } else {
      assert Rollbacks(s.Restore(), 0) == s.Restore();
    }
  }

  /** With sessions committed inside it, the state of the session's start is still
      recorded, but below the records of the committed ones: reaching it takes one
      rollback more for each of them. */
  lemma CommittedInsideNeedsMoreRollbacks<V>(start: Spec<V>, ops: seq<Op<V>>)
    requires !start.disabled && Inside(start.Start(false), ops, start.active, 0)
    requires Run(start.Start(false), ops).active == start.active + 1
    ensures var e := Run(start.Start(false), ops);
            1 + Commits(ops) <= |e.snapshots| && Rollbacks(e, 1 + Commits(ops)).db == start.db
  {
    HoldsAtStart(start);
    RunHolds(start.Start(false), start, ops, 0);
    HeldIsReached(Run(start.Start(false), ops), start, Commits(ops));
  }

  lemma HeldIsReached<V>(e: Spec<V>, start: Spec<V>, c: nat)
    requires Holds(e, start, c) && e.active == start.active + 1
    ensures 1 + c <= |e.snapshots| && Rollbacks(e, 1 + c).db == start.db
  {
    RollbacksReach(e, 1 + c);
  }

  lemma FourSteps<V>(s: Spec<V>, o1: Op<V>, o2: Op<V>, o3: Op<V>, o4: Op<V>)
    ensures
      var s2 := Step(s, o1);
      var s3 := Step(s2, o2);
      var s4 := Step(s3, o3);
      var s5 := Step(s4, o4);
      Run(s, [o1, o2, o3, o4]) == s5
  {
    hide Step;
    assert [o1, o2, o3, o4][1..] == [o2, o3, o4];
    assert [o2, o3, o4][1..] == [o3, o4];
    assert [o3, o4][1..] == [o4];
    assert [o4][1..] == [];
    var s4 := Step(Step(Step(s, o1), o2), o3);
    assert Run(s4, [o4]) == Step(s4, o4);
    assert Run(Step(Step(s, o1), o2), [o3, o4]) == Step(s4, o4);
  }

  /** So undoing a session after a nested commit does not restore its start: here
      the object created before the nested session survives. */
  lemma NestedCommitSurvivesUndo()
    ensures var start := Spec(Db(map[], map[0 := 0]), [], 0, false, 256);
            var ops := [Create(0, 7), Start, Create(0, 8), Commit];
            var e := Run(start.Start(false), ops);
            && Inside(start.Start(false), ops, 0, 0) && e.active == 1
            && ObjectId(0, 0) in e.Undo().db.objects && ObjectId(0, 0) !in start.db.objects
  {
    hide Run;
    var start: Spec<int> := Spec(Db(map[], map[0 := 0]), [], 0, false, 256);
    var o1, o2, o3, o4 := Create(0, 7), Op<int>.Start, Create(0, 8), Op<int>.Commit;
    var s1 := start.Start(false);
    var s2 := Step(s1, o1);
    var s3 := Step(s2, o2);
    var s4 := Step(s3, o3);
    var s5 := Step(s4, o4);
    assert [o1, o2, o3, o4][1..] == [o2, o3, o4];
    assert [o2, o3, o4][1..] == [o3, o4];
    assert [o3, o4][1..] == [o4];
    assert [o4][1..] == [];
    FourSteps(s1, o1, o2, o3, o4);
    assert Inside(s5, [], 0, 1) && Inside(s4, [o4], 0, 0) && Inside(s3, [o3, o4], 0, 0);
    assert Inside(s2, [o2, o3, o4], 0, 0) && Inside(s1, [o1, o2, o3, o4], 0, 0);
  }

  // ------------------------------------------------------------------
  // Blocks: committed sessions popped in reverse

  /// A block's changes: a session closed by its commit, nothing committed inside.
  ghost predicate IsBlock<V>(s: Spec<V>, ops: seq<Op<V>>) {
    && !s.disabled && s.active == 0
    && Inside(s.Start(false), ops, 0, 0) && Commits(ops) == 0
    && Run(s.Start(false), ops).active == 1
  }

  function RunBlock<V>(s: Spec<V>, ops: seq<Op<V>>): Spec<V> {
    Run(s.Start(false), ops).Commit()
  }

  function RunBlocks<V>(s: Spec<V>, blocks: seq<seq<Op<V>>>): Spec<V>
    decreases |blocks|
  {
    if blocks == [] then s
    else RunBlock(RunBlocks(s, blocks[..|blocks| - 1]), blocks[|blocks| - 1])
  }

  ghost predicate AreBlocks<V>(s: Spec<V>, blocks: seq<seq<Op<V>>>)
    decreases |blocks|
  {
    if blocks == [] then !s.disabled && s.active == 0
    else
      && AreBlocks(s, blocks[..|blocks| - 1])
      && IsBlock(RunBlocks(s, blocks[..|blocks| - 1]), blocks[|blocks| - 1])
  }

  function Pops<V>(s: Spec<V>, k: nat): Spec<V>
    decreases k
  {
    if k == 0 then s else Pops(s.PopCommit(), k - 1)
  }

  lemma BlockLeavesCopy<V>(s: Spec<V>, ops: seq<Op<V>>)
    requires IsBlock(s, ops)
    ensures var e := RunBlock(s, ops);
            && !e.disabled && e.active == 0 && e.snapshots != []
            && e.PopCommit().db == s.db && IsSuffix(e.PopCommit().snapshots, s.snapshots)
  {
    HoldsAtStart(s);
    RunHolds(s.Start(false), s, ops, 0);
  }

  lemma {:induction false} PopsDependOnCopies<V>(s: Spec<V>, t: Spec<V>, k: nat)
    requires s.active == 0 && t.active == 0 && s.db == t.db
    requires IsSuffix(s.snapshots, t.snapshots) && k <= |s.snapshots|
    ensures Pops(s, k).db == Pops(t, k).db
    decreases k
  {
    if k > 0 {
      var s', t' := s.PopCommit(), t.PopCommit();
      assert s'.snapshots == t'.snapshots[|t'.snapshots| - |s'.snapshots|..];
      PopsDependOnCopies(s', t', k - 1);
    }
  }

  lemma PopsUndoBlock<V>(before: Spec<V>, ops: seq<Op<V>>, k: nat)
    requires IsBlock(before, ops) && 0 < k <= |RunBlock(before, ops).snapshots|
    ensures k - 1 <= |before.snapshots|
    ensures Pops(RunBlock(before, ops), k).db == Pops(before, k - 1).db
  {
    BlockLeavesCopy(before, ops);
    PopsDependOnCopies(RunBlock(before, ops).PopCommit(), before, k - 1);
  }

  /** Popping `k` committed blocks gives the database as it was before the last
      `k` blocks, for every run of blocks and every `k` within the kept history. */
  lemma {:induction false} PopsRestoreEarlierBlocks<V>(s: Spec<V>, blocks: seq<seq<Op<V>>>, k: nat)
    requires AreBlocks(s, blocks) && k <= |blocks|
    requires k <= |RunBlocks(s, blocks).snapshots|
    ensures Pops(RunBlocks(s, blocks), k).db == RunBlocks(s, blocks[..|blocks| - k]).db
    decreases |blocks|
  {
    if k == 0 {
      assert blocks[..|blocks|] == blocks;
    } else {
      var n := |blocks|;
      PopsUndoBlock(RunBlocks(s, blocks[..n - 1]), blocks[n - 1], k);
      PopsRestoreEarlierBlocks(s, blocks[..n - 1], k - 1);
      assert blocks[..n - 1][..n - k] == blocks[..n - k];
    }
  }
}
