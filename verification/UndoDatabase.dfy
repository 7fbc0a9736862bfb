/** The undo database proper: a stack of records kept beside the objects, with
    nested sessions.  Models libraries/db/undo_database.cpp together with the
    create, modify and remove entry points of the object database. */
module UndoSpec {
  import opened Options
  import opened UndoStates

  /** The plain meaning of an undo database: beside the current objects it keeps
      a full copy of them for every record on the stack, oldest first. */
  datatype Spec<V> = Spec(db: Db<V>, snapshots: seq<Db<V>>, active: nat, disabled: bool, maxSize: nat) {

    /// Changes are recorded; the first one opens a record if there is none.
    function Touch(): Spec<V> {
      if !disabled && snapshots == [] then this.(snapshots := snapshots + [db]) else this
    }

    function Create(index: nat, v: V): Spec<V> {
      if index in db.nextIds then Touch().(db := CreateObject(db, index, v)) else this
    }

    function Modify(id: ObjectId, v: V): Spec<V> {
      if id in db.objects then Touch().(db := db.(objects := db.objects[id := v])) else this
    }

    function Remove(id: ObjectId): Spec<V> {
      if id in db.objects then Touch().(db := db.(objects := db.objects - {id})) else this
    }

    predicate Opens(forceEnable: bool) { !disabled || forceEnable }

    /// How many of the oldest copies opening a session drops.
    function Excess(): nat { if |snapshots| > maxSize then |snapshots| - maxSize else 0 }

    function Start(forceEnable: bool): Spec<V> {
      if Opens(forceEnable) then
        this.(snapshots := snapshots[Excess()..] + [db], active := active + 1, disabled := false)
      else this
    }

    function Restore(): Spec<V>
      requires snapshots != []
    {
      this.(db := snapshots[|snapshots| - 1], snapshots := snapshots[..|snapshots| - 1], disabled := false)
    }

    predicate CanUndo() { !disabled && active > 0 && snapshots != [] }

    function Undo(): Spec<V> {
      if CanUndo() then Restore().(active := active - 1) else this
    }

    predicate CanMerge() { active > 0 && ((active == 1 && |snapshots| == 1) || |snapshots| >= 2) }

    function Merge(): Spec<V> {
      if CanMerge() then this.(snapshots := snapshots[..|snapshots| - 1], active := active - 1) else this
    }

    function Commit(): Spec<V> {
      if active > 0 then this.(active := active - 1) else this
    }

    /// Every open session still has its copy.
    predicate Anchored() { active <= |snapshots| }

    predicate CanPop() { active == 0 && snapshots != [] }

    function PopCommit(): Spec<V> {
      if CanPop() then Restore() else this
    }
  }

  /** Opening a session keeps a copy for every open session exactly when there
      is room for the sessions already open: trimming does not spare them. */
  lemma StartKeepsAnchored<V>(s: Spec<V>, forceEnable: bool)
    requires s.Opens(forceEnable)
    ensures s.Start(forceEnable).Anchored() <==> s.Anchored() && s.active <= s.maxSize
  {
  }
}

/** The concrete state, records instead of copies, refines the plain meaning one
    operation at a time. */
module UndoRefinement {
  import opened UndoStates
  import opened UndoSpec

  datatype Concrete<V> = Concrete(
    db: Db<V>, stack: seq<UndoState<V>>, active: nat, disabled: bool, maxSize: nat)
  {
    ghost function View(): Spec<V> {
      Spec(db, Snapshots(db, stack), active, disabled, maxSize)
    }

    ghost predicate Valid() {
      StackRecords(db, stack)
    }

    /// Nothing on the stack is missing a change.
    predicate Tracking() {
      !disabled || stack == []
    }

    /// A change outside any session opens a record of its own.
    function OpenRecord(): Concrete<V> {
      if !disabled && stack == [] then this.(stack := stack + [EmptyState()]) else this
    }

    function ReplaceTop(top: UndoState<V>): Concrete<V>
      requires stack != []
    {
      this.(stack := stack[..|stack| - 1] + [top])
    }

    function Top(): UndoState<V>
      requires stack != []
    {
      stack[|stack| - 1]
    }

    function Pop(): Concrete<V>
      requires stack != []
    {
      this.(stack := stack[..|stack| - 1])
    }

    function Create(index: nat, v: V): Concrete<V>
      requires index in db.nextIds
    {
      var id := ObjectId(index, db.nextIds[index]);
      (if disabled then this else OpenRecord().ReplaceTop(OnCreate(OpenRecord().Top(), id)))
      .(db := CreateObject(db, index, v))
    }

    function Modify(id: ObjectId, v: V): Concrete<V>
      requires id in db.objects
    {
      (if disabled then this else OpenRecord().ReplaceTop(OnModify(OpenRecord().Top(), id, db.objects[id])))
      .(db := db.(objects := db.objects[id := v]))
    }

    function Remove(id: ObjectId): Concrete<V>
      requires id in db.objects
    {
      (if disabled then this else OpenRecord().ReplaceTop(OnRemove(OpenRecord().Top(), id, db.objects[id])))
      .(db := db.(objects := db.objects - {id}))
    }

    function Trimmed(): seq<UndoState<V>> {
      stack[if |stack| > maxSize then |stack| - maxSize else 0..]
    }

    function Start(): Concrete<V> {
      this.(stack := Trimmed() + [EmptyState()], active := active + 1, disabled := false)
    }
  }

  lemma OpenRecordRefines<V>(c: Concrete<V>)
    requires c.Valid()
    ensures c.OpenRecord().Valid() && c.OpenRecord().View() == c.View().Touch()
  {
    PushSnapshot(c.db, c.stack);
  }

  lemma CreateRefines<V>(c: Concrete<V>, index: nat, v: V)
    requires c.Valid() && c.Tracking() && index in c.db.nextIds
    ensures c.Create(index, v).Valid() && c.Create(index, v).View() == c.View().Create(index, v)
  {
    OpenRecordRefines(c);
    if c.disabled {
      CreateWellFormed(c.db, index, v);
      UntrackedChange(c.db, CreateObject(c.db, index, v));
    } else {
      CreateTracked(c.db, c.OpenRecord().stack, index, v);
    }
  }

  lemma ModifyRefines<V>(c: Concrete<V>, id: ObjectId, v: V)
    requires c.Valid() && c.Tracking() && id in c.db.objects
    ensures c.Modify(id, v).Valid() && c.Modify(id, v).View() == c.View().Modify(id, v)
  {
    OpenRecordRefines(c);
    if c.disabled {
      UntrackedChange(c.db, c.db.(objects := c.db.objects[id := v]));
    } else {
      ModifyTracked(c.db, c.OpenRecord().stack, id, v);
    }
  }

  lemma RemoveRefines<V>(c: Concrete<V>, id: ObjectId)
    requires c.Valid() && c.Tracking() && id in c.db.objects
    ensures c.Remove(id).Valid() && c.Remove(id).View() == c.View().Remove(id)
  {
    OpenRecordRefines(c);
    if c.disabled {
      UntrackedChange(c.db, c.db.(objects := c.db.objects - {id}));
    } else {
      RemoveTracked(c.db, c.OpenRecord().stack, id);
    }
  }

  lemma TrimRefines<V>(c: Concrete<V>, n: nat)
    requires c.Valid() && n <= |c.stack|
    ensures var c' := c.(stack := c.stack[n..]);
            c'.Valid() && c'.View() == c.View().(snapshots := c.View().snapshots[n..])
    decreases n
  {
    if n == 0 {
      assert c.stack[0..] == c.stack;
      assert c.View().snapshots[0..] == c.View().snapshots;
    } else {
      TrimRefines(c, n - 1);
      TrimDropsSnapshot(c.db, c.stack[n - 1..]);
      assert c.stack[n - 1..][1..] == c.stack[n..];
      assert c.View().snapshots[n - 1..][1..] == c.View().snapshots[n..];
    }
  }

  lemma StartRefines<V>(c: Concrete<V>, forceEnable: bool)
    requires c.Valid() && c.View().Opens(forceEnable)
    ensures c.Start().Valid() && c.Start().View() == c.View().Start(forceEnable)
  {
    TrimRefines(c, c.View().Excess());
    PushSnapshot(c.db, c.stack[c.View().Excess()..]);
  }

  lemma RestoreRefines<V>(c: Concrete<V>)
    requires c.Valid() && c.stack != []
    ensures var c' := c.Pop().(db := RollBack(c.db, c.Top()), disabled := false);
            c'.Valid() && c'.View() == c.View().Restore()
  {
    var below := RollBack(c.db, c.Top());
    var s := Snapshots(below, c.stack[..|c.stack| - 1]);
    assert (s + [below])[..|s|] == s;
  }

  lemma MergeRefines<V>(c: Concrete<V>)
    requires c.Valid() && c.active > 0 && |c.stack| >= 2
    ensures var n := |c.stack|;
            var c' := c.(stack := c.stack[..n - 2] + [Compose(c.stack[n - 2], c.stack[n - 1])], active := c.active - 1);
            c'.Valid() && c'.View() == c.View().Merge()
  {
    MergeDropsSnapshot(c.db, c.stack);
  }

  lemma MergeLastRefines<V>(c: Concrete<V>)
    requires c.Valid() && c.active == 1 && |c.stack| == 1
    ensures c.(stack := [], active := 0).Valid()
    ensures c.(stack := [], active := 0).View() == c.View().Merge()
  {
    assert c.View().snapshots[..0] == [];
  }
}

module UndoDatabase {
  import opened UndoRefinement
  import opened Options
  import opened UndoStates
  import opened UndoSpec

  class UndoDatabase<V> {
    var objects: map<ObjectId, V>
    var nextIds: map<nat, nat>
    var stack: seq<UndoState<V>>
    var activeSessions: nat
    var disabled: bool
    var maxSize: nat

    function Db(): Db<V>
      reads this`objects, this`nextIds
    {
      UndoStates.Db(objects, nextIds)
    }

    function State(): Concrete<V>
      reads this
    {
      Concrete(Db(), stack, activeSessions, disabled, maxSize)
    }

    ghost function View(): Spec<V>
      reads this
    {
      State().View()
    }

    ghost predicate Valid()
      reads this
    {
      State().Valid()
    }

    /// Nothing on the stack is missing a change.
    predicate Tracking()
      reads this
    {
      State().Tracking()
    }

    constructor (registered: set<nat>)
      ensures Valid() && Tracking()
      ensures View() == Spec(UndoStates.Db(map[], map i | i in registered :: 0), [], 0, false, 256)
    {
      objects, nextIds := map[], map i | i in registered :: 0;
      stack, activeSessions, disabled, maxSize := [], 0, false, 256;
    }

    // ----------------------------------------------------------------
    // Sessions

    /** Opens a session unless recording is off; drops the oldest records first. */
    method StartUndoSession(forceEnable: bool) returns (began: bool, disableOnExit: bool)
      requires Valid()
      modifies this`stack, this`activeSessions, this`disabled
      ensures Valid() && View() == old(View()).Start(forceEnable)
      ensures began == old(View()).Opens(forceEnable)
      ensures disableOnExit == (old(disabled) && forceEnable)
    {
      hide StackRecords, Snapshots;
      if disabled && !forceEnable {
        return false, false;
      }
      StartRefines(State(), forceEnable);
      disableOnExit := disabled && forceEnable;
      if forceEnable {
        disabled := false;
      }
      Trim();
      stack := stack + [EmptyState()];
      activeSessions := activeSessions + 1;
      assert State() == old(State()).Start();
      began := true;
    }

    /// Forgets the oldest records beyond the allowed size.
    method Trim()
      modifies this`stack
      ensures stack == old(State()).Trimmed()
    {
      ghost var dropped := 0;
      while |stack| > maxSize
        invariant 0 <= dropped <= |old(stack)| && stack == old(stack)[dropped..]
        invariant dropped > 0 ==> |stack| >= maxSize
        decreases |stack|
      {
        stack := stack[1..];
        dropped := dropped + 1;
      }
    }

    method Undo() returns (ok: bool)
      requires Valid()
      requires !disabled && activeSessions > 0 ==> stack != [] // else _stack.back() is undefined
      modifies this
      ensures Valid() && View() == old(View()).Undo() && ok == old(View()).CanUndo()
    {
      if disabled || activeSessions == 0 {
        return false;
      }
      RestoreRefines(State());
      RollBackTop();
      activeSessions := activeSessions - 1;
      return true;
    }

    method PopCommit() returns (ok: bool)
      requires Valid()
      modifies this
      ensures Valid() && View() == old(View()).PopCommit() && ok == old(View()).CanPop()
    {
      if activeSessions != 0 || stack == [] {
        return false;
      }
      RestoreRefines(State());
      RollBackTop();
      return true;
    }

    method Commit() returns (ok: bool)
      requires Valid()
      modifies this`activeSessions
      ensures Valid() && View() == old(View()).Commit() && ok == (old(activeSessions) > 0)
    {
      if activeSessions == 0 {
        return false;
      }
      activeSessions := activeSessions - 1;
      return true;
    }

    method Merge() returns (ok: bool)
      requires Valid()
      modifies this`stack, this`activeSessions
      ensures Valid() && View() == old(View()).Merge() && ok == old(View()).CanMerge()
    {
      if activeSessions == 0 {
        return false;
      }
      if activeSessions == 1 && |stack| == 1 {
        MergeLastRefines(State());
        stack := [];
        activeSessions := 0;
        return true;
      }
      if |stack| < 2 {
        return false;
      }
      var n := |stack|;
      MergeRefines(State());
      TopTwoSeparate(Db(), stack);
      var merged := MergeInto(stack[n - 2], stack[n - 1]);
      stack := stack[..n - 2] + [merged];
      activeSessions := activeSessions - 1;
      return true;
    }

    method SetMaxSize(n: nat)
      requires Valid()
      modifies this`maxSize
      ensures Valid() && View() == old(View()).(maxSize := n)
    {
      maxSize := n;
    }

    method Enable()
      requires Valid()
      modifies this`disabled
      ensures Valid() && View() == old(View()).(disabled := false)
    {
      disabled := false;
    }

    method Disable()
      requires Valid()
      modifies this`disabled
      ensures Valid() && View() == old(View()).(disabled := true)
    {
      disabled := true;
    }

    // ----------------------------------------------------------------
    // Changes

    method Create(index: nat, v: V) returns (id: Option<ObjectId>)
      requires Valid()
      modifies this`objects, this`nextIds, this`stack
      ensures old(Tracking()) ==> Valid() && View() == old(View()).Create(index, v)
      ensures Db() == old(View()).Create(index, v).db
      ensures id == if index in old(nextIds) then Some(ObjectId(index, old(nextIds)[index])) else None
    {
      hide StackRecords, Snapshots;
      if index !in nextIds {
        return None;
      }
      if Tracking() {
        CreateRefines(State(), index, v);
      }
      var next := ObjectId(index, nextIds[index]);
      if !disabled {
        OpenRecord();
        stack := stack[..|stack| - 1] + [OnCreate(stack[|stack| - 1], next)];
      }
      objects := objects[next := v];
      nextIds := nextIds[index := next.instance + 1];
      assert State() == old(State()).Create(index, v);
      return Some(next);
    }

    method Modify(id: ObjectId, v: V) returns (ok: bool)
      requires Valid()
      modifies this`objects, this`stack
      ensures old(Tracking()) ==> Valid() && View() == old(View()).Modify(id, v)
      ensures Db() == old(View()).Modify(id, v).db
      ensures ok == (id in old(objects))
    {
      hide StackRecords, Snapshots;
      if id !in objects {
        return false;
      }
      if Tracking() {
        ModifyRefines(State(), id, v);
      }
      if !disabled {
        OpenRecord();
        stack := stack[..|stack| - 1] + [OnModify(stack[|stack| - 1], id, objects[id])];
      }
      objects := objects[id := v];
      assert State() == old(State()).Modify(id, v);
      return true;
    }

    method Remove(id: ObjectId) returns (ok: bool)
      requires Valid()
      modifies this`objects, this`stack
      ensures old(Tracking()) ==> Valid() && View() == old(View()).Remove(id)
      ensures Db() == old(View()).Remove(id).db
      ensures ok == (id in old(objects))
    {
      hide StackRecords, Snapshots;
      if id !in objects {
        return false;
      }
      if Tracking() {
        RemoveRefines(State(), id);
      }
      if !disabled {
        OpenRecord();
        stack := stack[..|stack| - 1] + [OnRemove(stack[|stack| - 1], id, objects[id])];
      }
      objects := objects - {id};
      assert State() == old(State()).Remove(id);
      return true;
    }

    /// A change outside any session opens a record of its own.
    method OpenRecord()
      requires !disabled
      modifies this`stack
      ensures State() == old(State()).OpenRecord() && stack != []
    {
      if stack == [] {
        stack := stack + [EmptyState()];
      }
    }

    // ----------------------------------------------------------------
    // Rolling back

    method RollBackTop()
      requires stack != []
      modifies this`objects, this`nextIds, this`stack, this`disabled
      ensures State() == old(State().Pop().(db := RollBack(Db(), State().Top()), disabled := false))
    {
      disabled := true;
      var state := stack[|stack| - 1];
      RollBackInOrder(objects, state);
      objects := PutAll(objects, state.oldValues);
      objects := RemoveAll(objects, state.newIds);
      nextIds := SetNextIds(nextIds, state.oldNextIds);
      objects := PutAll(objects, state.removed);
      stack := stack[..|stack| - 1];
      disabled := false;
    }
  }

  /// No object is in a cell that violates causal timing.
  ghost predicate Separate<V>(prev: UndoState<V>, s: UndoState<V>) {
    && prev.newIds !! prev.oldValues.Keys
    && s.newIds !! s.oldValues.Keys
    && s.newIds !! prev.oldValues.Keys
    && s.removed.Keys !! s.newIds
    && s.removed.Keys !! s.oldValues.Keys
    && s.oldValues.Keys !! prev.removed.Keys
    && s.removed.Keys !! prev.removed.Keys
  }

  lemma TopTwoSeparate<V>(db: Db<V>, stack: seq<UndoState<V>>)
    requires |stack| >= 2 && StackRecords(db, stack)
    ensures Separate(stack[|stack| - 2], stack[|stack| - 1])
  {
    var below := stack[..|stack| - 1];
    assert StackRecords(RollBack(db, stack[|stack| - 1]), below);
    assert below[|below| - 1] == stack[|stack| - 2];
    CausalTiming(db, stack[|stack| - 2], stack[|stack| - 1]);
  }

  lemma RollBackInOrder<V>(objects: map<ObjectId, V>, s: UndoState<V>)
    ensures RolledBack(objects, s) == objects + s.oldValues - s.newIds + s.removed
  {
  }

  /// Writes every value back, one object at a time.
  method PutAll<V>(objects: map<ObjectId, V>, values: map<ObjectId, V>) returns (r: map<ObjectId, V>)
    ensures r == objects + values
  {
    r := objects;
    var todo := values.Keys;
    while todo != {}
      invariant todo <= values.Keys
      invariant r.Keys == objects.Keys + (values.Keys - todo)
      invariant forall id <- r :: r[id] == if id in values && id !in todo then values[id] else objects[id]
      decreases |todo|
    {
      var id :| id in todo;
      r := r[id := values[id]];
      todo := todo - {id};
    }
  }

  method RemoveAll<V>(objects: map<ObjectId, V>, ids: set<ObjectId>) returns (r: map<ObjectId, V>)
    ensures r == objects - ids
  {
    r := objects;
    var todo := ids;
    while todo != {}
      invariant todo <= ids
      invariant r == objects - (ids - todo)
      decreases |todo|
    {
      var id :| id in todo;
      r := r - {id};
      todo := todo - {id};
    }
  }

  method SetNextIds(next: map<nat, nat>, old_: map<nat, nat>) returns (r: map<nat, nat>)
    ensures r == next + old_
  {
    r := next;
    var todo := old_.Keys;
    while todo != {}
      invariant todo <= old_.Keys
      invariant r.Keys == next.Keys + (old_.Keys - todo)
      invariant forall i <- r :: r[i] == if i in old_ && i !in todo then old_[i] else next[i]
      decreases |todo|
    {
      var i :| i in todo;
      r := r[i := old_[i]];
      todo := todo - {i};
    }
  }

  // ------------------------------------------------------------------
  // Merging, loop by loop

  /** Rewrites `prev` into the composition of `prev` and `s`; the assertions are
      the ones the source places in the impossible cells. */
  method MergeInto<V>(prev: UndoState<V>, s: UndoState<V>) returns (r: UndoState<V>)
    requires Separate(prev, s)
    ensures r == Compose(prev, s)
  {
    var oldValues := AddUpdates(prev, s);
    var newIds := prev.newIds + s.newIds;
    var next := AddNextIds(prev.oldNextIds, s.oldNextIds);
    var all := UndoState(oldValues, next, newIds, prev.removed);
    r := AddRemovals(all, s.removed);
    MergedRemovalsAre(prev, s, oldValues, newIds, r.removed);
    MergedUpdatesAre(prev, s, oldValues, r.oldValues);
  }

  lemma MergedUpdatesAre<V>(prev: UndoState<V>, s: UndoState<V>, updated: map<ObjectId, V>, r: map<ObjectId, V>)
    requires Updated(prev, s, updated)
    requires r.Keys == updated.Keys - s.removed.Keys && forall k <- r :: r[k] == updated[k]
    ensures r == Compose(prev, s).oldValues
  {
    forall k ensures Lookup(r, k) == Lookup(Compose(prev, s).oldValues, k) {
      ComposeCells(prev, s, k);
    }
    SameMap(r, Compose(prev, s).oldValues);
  }

  lemma MergedRemovalsAre<V>(
      prev: UndoState<V>, s: UndoState<V>, updated: map<ObjectId, V>, newIds: set<ObjectId>, r: map<ObjectId, V>)
    requires Updated(prev, s, updated) && newIds == prev.newIds + s.newIds
    requires Separate(prev, s)
    requires r.Keys == prev.removed.Keys + (s.removed.Keys - newIds)
    requires forall k <- r :: r[k] == RemovedWas(UndoState(updated, map[], newIds, prev.removed), s.removed, k)
    ensures r == Compose(prev, s).removed
  {
    forall k ensures Lookup(r, k) == Lookup(Compose(prev, s).removed, k) {
      ComposeCells(prev, s, k);
      if k in r {
        assert r[k] == RemovedWas(UndoState(updated, map[], newIds, prev.removed), s.removed, k);
      }
    }
    SameMap(r, Compose(prev, s).removed);
  }

  /// The updates of `s` have been merged into those of `prev`.
  ghost predicate Updated<V>(prev: UndoState<V>, s: UndoState<V>, r: map<ObjectId, V>) {
    && r.Keys == prev.oldValues.Keys + (s.oldValues.Keys - prev.newIds)
    && forall k <- r :: r[k] == if k in prev.oldValues then prev.oldValues[k] else s.oldValues[k]
  }

  method AddUpdates<V>(prev: UndoState<V>, s: UndoState<V>) returns (r: map<ObjectId, V>)
    requires s.oldValues.Keys !! prev.removed.Keys
    ensures Updated(prev, s, r)
  {
    r := prev.oldValues;
    var todo := s.oldValues.Keys;
    while todo != {}
      invariant todo <= s.oldValues.Keys
      invariant r.Keys == prev.oldValues.Keys + (s.oldValues.Keys - todo - prev.newIds)
      invariant forall k <- r :: r[k] == if k in prev.oldValues then prev.oldValues[k] else s.oldValues[k]
      decreases |todo|
    {
      var id :| id in todo;
      todo := todo - {id};
      if id in prev.newIds {
        // new+upd -> new
      } else if id in prev.oldValues {
        // upd(X)+upd(Y) -> upd(X)
      } else {
        assert id !in prev.removed; // del+upd -> N/A
        r := r[id := s.oldValues[id]];
      }
    }
  }

  method AddNextIds(prev: map<nat, nat>, s: map<nat, nat>) returns (r: map<nat, nat>)
    ensures r == s + prev
  {
    r := prev;
    var todo := s.Keys;
    while todo != {}
      invariant todo <= s.Keys
      invariant r == (map i | i in s && i !in todo :: s[i]) + prev
      decreases |todo|
    {
      var i :| i in todo;
      todo := todo - {i};
      if i !in prev {
        r := r[i := s[i]];
      }
    }
  }

  method AddRemovals<V>(prev: UndoState<V>, removed: map<ObjectId, V>) returns (r: UndoState<V>)
    requires prev.removed.Keys !! removed.Keys
    requires prev.newIds !! prev.oldValues.Keys
    ensures r.oldNextIds == prev.oldNextIds
    ensures r.newIds == prev.newIds - removed.Keys
    ensures r.oldValues.Keys == prev.oldValues.Keys - removed.Keys
    ensures forall k <- r.oldValues :: r.oldValues[k] == prev.oldValues[k]
    ensures r.removed.Keys == prev.removed.Keys + (removed.Keys - prev.newIds)
    ensures forall k <- r.removed :: r.removed[k] == RemovedWas(prev, removed, k)
  {
    r := prev;
    var todo := removed.Keys;
    while todo != {}
      invariant todo <= removed.Keys
      invariant r.oldNextIds == prev.oldNextIds
      invariant r.newIds == prev.newIds - (removed.Keys - todo)
      invariant r.oldValues.Keys == prev.oldValues.Keys - (removed.Keys - todo)
      invariant forall k <- r.oldValues :: r.oldValues[k] == prev.oldValues[k]
      invariant r.removed.Keys == prev.removed.Keys + (removed.Keys - todo - prev.newIds)
      invariant forall k <- r.removed :: r.removed[k] == RemovedWas(prev, removed, k)
      decreases |todo|
    {
      var id :| id in todo;
      todo := todo - {id};
      if id in r.newIds {
        r := r.(newIds := r.newIds - {id}); // new+del -> nop
      } else if id in r.oldValues {
        // upd(X)+del(Y) -> del(X)
        r := r.(removed := r.removed[id := r.oldValues[id]], oldValues := r.oldValues - {id});
      } else {
        assert id !in r.removed; // del+del -> N/A
        r := r.(removed := r.removed[id := removed[id]]);
      }
    }
  }

  function RemovedWas<V>(prev: UndoState<V>, removed: map<ObjectId, V>, k: ObjectId): V
    requires k in prev.removed || k in removed
  {
    if k in prev.removed then prev.removed[k]
    else if k in prev.oldValues then prev.oldValues[k]
    else removed[k]
  }
}
