/** Differences between two states of the object database, and how they record,
    roll back and compose.  Models undo_state and the bookkeeping of
    libraries/db/undo_database.cpp on values. */
module UndoStates {
  import opened Options

  /// An index (space and type) together with an instance number.
  datatype ObjectId = ObjectId(index: nat, instance: nat)

  /// The objects of the database and the next instance number of every index.
  datatype Db<V> = Db(objects: map<ObjectId, V>, nextIds: map<nat, nat>)

  datatype UndoState<V> = UndoState(
    oldValues: map<ObjectId, V>,
    oldNextIds: map<nat, nat>,
    newIds: set<ObjectId>,
    removed: map<ObjectId, V>)

  function EmptyState<V>(): UndoState<V> {
    UndoState(map[], map[], {}, map[])
  }

  /// The instance was handed out by its index before `next`.
  predicate Issued(id: ObjectId, next: map<nat, nat>) {
    id.index in next && id.instance < next[id.index]
  }

  /// Every object carries an id its index has already handed out.
  ghost predicate WellFormed<V>(db: Db<V>) {
    forall id <- db.objects :: Issued(id, db.nextIds)
  }

  /// Undoing: restore modified values, remove new objects, reset the next
  /// ids, and insert removed objects, in this order.
  function RollBack<V>(db: Db<V>, s: UndoState<V>): Db<V> {
    Db(RolledBack(db.objects, s), db.nextIds + s.oldNextIds)
  }

  function RolledBack<V>(objects: map<ObjectId, V>, s: UndoState<V>): map<ObjectId, V> {
    map id | id in objects.Keys + s.oldValues.Keys - s.newIds + s.removed.Keys ::
      if id in s.removed then s.removed[id]
      else if id in s.oldValues then s.oldValues[id]
      else objects[id]
  }

  function Lookup<V>(m: map<ObjectId, V>, id: ObjectId): Option<V> {
    if id in m then Some(m[id]) else None
  }

  /// What rolling back makes of a single object.
  function RolledBackAt<V>(current: Option<V>, s: UndoState<V>, id: ObjectId): Option<V> {
    if id in s.removed then Some(s.removed[id])
    else if id in s.newIds then None
    else if id in s.oldValues then Some(s.oldValues[id])
    else current
  }

  lemma RollBackPointwise<V>(objects: map<ObjectId, V>, s: UndoState<V>, id: ObjectId)
    ensures Lookup(RolledBack(objects, s), id) == RolledBackAt(Lookup(objects, id), s, id)
  {
  }

  lemma SameMap<V>(a: map<ObjectId, V>, b: map<ObjectId, V>)
    requires forall id :: Lookup(a, id) == Lookup(b, id)
    ensures a == b
  {
    forall id ensures id in a <==> id in b {
      assert Lookup(a, id) == Lookup(b, id);
    }
    forall id <- a ensures a[id] == b[id] {
      assert Lookup(a, id) == Lookup(b, id);
    }
  }

  /// `s` is a possible record of what happened since RollBack(db, s).
  ghost predicate Records<V>(db: Db<V>, s: UndoState<V>) {
    && Shape(db, s)
    && WellFormed(db)
    && WellFormed(RollBack(db, s))
  }

  ghost predicate Shape<V>(db: Db<V>, s: UndoState<V>) {
    && s.newIds <= db.objects.Keys
    && s.oldValues.Keys <= db.objects.Keys
    && s.oldValues.Keys !! s.newIds
    && s.removed.Keys !! db.objects.Keys
    && s.oldNextIds.Keys <= db.nextIds.Keys
    && (forall i <- s.oldNextIds :: s.oldNextIds[i] <= db.nextIds[i])
    && (forall id <- s.newIds :: id.index in s.oldNextIds && s.oldNextIds[id.index] <= id.instance)
  }

  // ------------------------------------------------------------------
  // Recording

  function CreateObject<V>(db: Db<V>, index: nat, v: V): Db<V>
    requires index in db.nextIds
  {
    var id := ObjectId(index, db.nextIds[index]);
    Db(db.objects[id := v], db.nextIds[index := id.instance + 1])
  }

  function OnCreate<V>(s: UndoState<V>, id: ObjectId): UndoState<V> {
    s.(newIds := s.newIds + {id},
       oldNextIds := if id.index in s.oldNextIds then s.oldNextIds else s.oldNextIds[id.index := id.instance])
  }

  function OnModify<V>(s: UndoState<V>, id: ObjectId, before: V): UndoState<V> {
    if id in s.newIds || id in s.oldValues then s
    else s.(oldValues := s.oldValues[id := before])
  }

  function OnRemove<V>(s: UndoState<V>, id: ObjectId, before: V): UndoState<V> {
    if id in s.newIds then s.(newIds := s.newIds - {id})
    else if id in s.oldValues then
      s.(removed := s.removed[id := s.oldValues[id]], oldValues := s.oldValues - {id})
    else if id in s.removed then s
    else s.(removed := s.removed[id := before])
  }

  lemma NothingRecorded<V>(db: Db<V>)
    requires WellFormed(db)
    ensures RollBack(db, EmptyState()) == db && Records(db, EmptyState())
  {
    assert RollBack(db, EmptyState()).objects == db.objects;
    assert RollBack(db, EmptyState()).nextIds == db.nextIds;
  }

  /** A recorded creation, modification or removal rolls back to the state that
      the record rolled back to before. */
  lemma CreateRollsBack<V>(db: Db<V>, s: UndoState<V>, index: nat, v: V)
    requires Records(db, s) && index in db.nextIds
    ensures var id := ObjectId(index, db.nextIds[index]);
            var db', s' := CreateObject(db, index, v), OnCreate(s, id);
            RollBack(db', s') == RollBack(db, s) && Records(db', s')
  {
    var id := ObjectId(index, db.nextIds[index]);
    var db', s' := CreateObject(db, index, v), OnCreate(s, id);
    FreshId(db, s, index);
    forall k ensures Lookup(RolledBack(db'.objects, s'), k) == Lookup(RolledBack(db.objects, s), k) {
      CreatePointwise(db, s, index, v, k);
    }
    SameMap(RolledBack(db'.objects, s'), RolledBack(db.objects, s));
    CreateNextIds(db, s, index, v);
    CreateShape(db, s, index, v);
  }

  lemma CreateShape<V>(db: Db<V>, s: UndoState<V>, index: nat, v: V)
    requires Records(db, s) && index in db.nextIds
    ensures var db' := CreateObject(db, index, v);
            Shape(db', OnCreate(s, ObjectId(index, db.nextIds[index]))) && WellFormed(db')
  {
    FreshId(db, s, index);
  }

  lemma FreshId<V>(db: Db<V>, s: UndoState<V>, index: nat)
    requires Records(db, s) && index in db.nextIds
    ensures var id := ObjectId(index, db.nextIds[index]);
            id !in db.objects && id !in s.removed && id !in s.oldValues && id !in s.newIds
  {
    var id := ObjectId(index, db.nextIds[index]);
    assert !Issued(id, db.nextIds);
    RollBackPointwise(db.objects, s, id);
  }

  lemma CreatePointwise<V>(db: Db<V>, s: UndoState<V>, index: nat, v: V, k: ObjectId)
    requires Records(db, s) && index in db.nextIds
    ensures var id := ObjectId(index, db.nextIds[index]);
            var db', s' := CreateObject(db, index, v), OnCreate(s, id);
            Lookup(RolledBack(db'.objects, s'), k) == Lookup(RolledBack(db.objects, s), k)
  {
    var id := ObjectId(index, db.nextIds[index]);
    FreshId(db, s, index);
    RollBackPointwise(CreateObject(db, index, v).objects, OnCreate(s, id), k);
    RollBackPointwise(db.objects, s, k);
  }

  lemma CreateNextIds<V>(db: Db<V>, s: UndoState<V>, index: nat, v: V)
    requires index in db.nextIds
    ensures var s' := OnCreate(s, ObjectId(index, db.nextIds[index]));
            CreateObject(db, index, v).nextIds + s'.oldNextIds == db.nextIds + s.oldNextIds
  {
  }

  lemma ModifyRollsBack<V>(db: Db<V>, s: UndoState<V>, id: ObjectId, v: V)
    requires Records(db, s) && id in db.objects
    ensures var db', s' := db.(objects := db.objects[id := v]), OnModify(s, id, db.objects[id]);
            RollBack(db', s') == RollBack(db, s) && Records(db', s')
  {
    var db', s' := db.(objects := db.objects[id := v]), OnModify(s, id, db.objects[id]);
    forall k ensures Lookup(RolledBack(db'.objects, s'), k) == Lookup(RolledBack(db.objects, s), k) {
      ModifyPointwise(db, s, id, v, k);
    }
    SameMap(RolledBack(db'.objects, s'), RolledBack(db.objects, s));
    assert db'.objects.Keys == db.objects.Keys;
  }

  lemma ModifyPointwise<V>(db: Db<V>, s: UndoState<V>, id: ObjectId, v: V, k: ObjectId)
    requires Records(db, s) && id in db.objects
    ensures Lookup(RolledBack(db.objects[id := v], OnModify(s, id, db.objects[id])), k)
         == Lookup(RolledBack(db.objects, s), k)
  {
    RollBackPointwise(db.objects[id := v], OnModify(s, id, db.objects[id]), k);
    RollBackPointwise(db.objects, s, k);
  }

  lemma RemoveRollsBack<V>(db: Db<V>, s: UndoState<V>, id: ObjectId)
    requires Records(db, s) && id in db.objects
    ensures var db', s' := db.(objects := db.objects - {id}), OnRemove(s, id, db.objects[id]);
            RollBack(db', s') == RollBack(db, s) && Records(db', s')
  {
    var db', s' := db.(objects := db.objects - {id}), OnRemove(s, id, db.objects[id]);
    forall k ensures Lookup(RolledBack(db'.objects, s'), k) == Lookup(RolledBack(db.objects, s), k) {
      RemovePointwise(db, s, id, k);
    }
    SameMap(RolledBack(db'.objects, s'), RolledBack(db.objects, s));
    RemoveShape(db, s, id);
  }

  lemma RemovePointwise<V>(db: Db<V>, s: UndoState<V>, id: ObjectId, k: ObjectId)
    requires Records(db, s) && id in db.objects
    ensures Lookup(RolledBack(db.objects - {id}, OnRemove(s, id, db.objects[id])), k)
         == Lookup(RolledBack(db.objects, s), k)
  {
    RollBackPointwise(db.objects - {id}, OnRemove(s, id, db.objects[id]), k);
    RollBackPointwise(db.objects, s, k);
  }

  lemma RemoveShape<V>(db: Db<V>, s: UndoState<V>, id: ObjectId)
    requires Records(db, s) && id in db.objects
    ensures Shape(db.(objects := db.objects - {id}), OnRemove(s, id, db.objects[id]))
  {
  }

  // ------------------------------------------------------------------
  // Composition

  /// The record of `prev` followed by `s`, cell by cell of the 4x4 table.
  function Compose<V>(prev: UndoState<V>, s: UndoState<V>): UndoState<V> {
    UndoState(
      MergedUpdates(prev, s) - s.removed.Keys,
      s.oldNextIds + prev.oldNextIds,
      prev.newIds + s.newIds - s.removed.Keys,
      MergedRemovals(prev, s))
  }

  /// *+upd: what prev already knows wins.
  function MergedUpdates<V>(prev: UndoState<V>, s: UndoState<V>): map<ObjectId, V> {
    prev.oldValues + map id | id in s.oldValues && id !in prev.newIds && id !in prev.oldValues :: s.oldValues[id]
  }

  /// *+del: new+del leaves nothing, upd(X)+del leaves del(X).
  function MergedRemovals<V>(prev: UndoState<V>, s: UndoState<V>): map<ObjectId, V> {
    prev.removed + map id | id in s.removed && id !in prev.newIds ::
      if id in prev.oldValues then prev.oldValues[id] else s.removed[id]
  }

  /** The cells marked N/A in the table cannot occur, because an id is never
      handed out twice without an undo in between. */
  lemma CausalTiming<V>(db: Db<V>, prev: UndoState<V>, s: UndoState<V>)
    requires Records(db, s) && Records(RollBack(db, s), prev)
    ensures s.newIds !! prev.newIds
    ensures s.newIds !! prev.oldValues.Keys
    ensures s.newIds !! prev.removed.Keys
    ensures s.oldValues.Keys !! prev.removed.Keys
    ensures s.removed.Keys !! prev.removed.Keys
  {
    var mid := RollBack(db, s);
    forall id <- prev.removed ensures id !in s.newIds {
      assert id in RollBack(mid, prev).objects;
      assert Issued(id, mid.nextIds) by {
        assert Issued(id, RollBack(mid, prev).nextIds);
      }
    }
    assert s.oldValues.Keys <= mid.objects.Keys;
  }

  /** Merging is composition: undoing the merged record once gives the database
      that undoing the two records in turn gives, and the merged record is again
      a possible record. */
  lemma ComposeRollsBack<V>(db: Db<V>, prev: UndoState<V>, s: UndoState<V>)
    requires Records(db, s) && Records(RollBack(db, s), prev)
    ensures RollBack(db, Compose(prev, s)) == RollBack(RollBack(db, s), prev)
    ensures Records(db, Compose(prev, s))
  {
    CausalTiming(db, prev, s);
    var mid := RollBack(db, s);
    var c := Compose(prev, s);
    forall k ensures Lookup(RolledBack(db.objects, c), k) == Lookup(RolledBack(mid.objects, prev), k) {
      ComposePointwise(db, prev, s, k);
    }
    SameMap(RolledBack(db.objects, c), RolledBack(mid.objects, prev));
    ComposeNextIds(db.nextIds, prev.oldNextIds, s.oldNextIds);
    ComposeShape(db, prev, s);
  }

  /// The table, one object at a time.
  lemma ComposePointwise<V>(db: Db<V>, prev: UndoState<V>, s: UndoState<V>, k: ObjectId)
    requires Records(db, s) && Records(RollBack(db, s), prev)
    ensures Lookup(RolledBack(db.objects, Compose(prev, s)), k)
         == Lookup(RolledBack(RolledBack(db.objects, s), prev), k)
  {
    CausalTiming(db, prev, s);
    RollBackPointwise(db.objects, Compose(prev, s), k);
    RollBackPointwise(db.objects, s, k);
    RollBackPointwise(RolledBack(db.objects, s), prev, k);
    ComposeCells(prev, s, k);
    assert k in prev.newIds || k in prev.oldValues ==> k in RolledBack(db.objects, s);
    assert k in s.newIds || k in s.oldValues ==> k in db.objects;
  }

  lemma ComposeCells<V>(prev: UndoState<V>, s: UndoState<V>, k: ObjectId)
    ensures k in Compose(prev, s).newIds <==> (k in prev.newIds || k in s.newIds) && k !in s.removed
    ensures Lookup(Compose(prev, s).removed, k) ==
            if k in s.removed && k !in prev.newIds then
              if k in prev.oldValues then Some(prev.oldValues[k]) else Some(s.removed[k])
            else Lookup(prev.removed, k)
    ensures Lookup(Compose(prev, s).oldValues, k) ==
            if k in s.removed then None
            else if k in prev.oldValues then Some(prev.oldValues[k])
            else if k in prev.newIds then None
            else Lookup(s.oldValues, k)
  {
  }

  lemma ComposeNextIds(next: map<nat, nat>, prev: map<nat, nat>, s: map<nat, nat>)
    ensures next + (s + prev) == (next + s) + prev
  {
  }

  lemma ComposeShape<V>(db: Db<V>, prev: UndoState<V>, s: UndoState<V>)
    requires Records(db, s) && Records(RollBack(db, s), prev)
    ensures Shape(db, Compose(prev, s))
  {
    CausalTiming(db, prev, s);
    var c := Compose(prev, s);
    forall k ensures k in c.newIds ==> k in db.objects && k !in c.oldValues
             ensures k in c.oldValues ==> k in db.objects
             ensures k in c.removed ==> k !in db.objects
             ensures k in c.newIds ==> k.index in c.oldNextIds && c.oldNextIds[k.index] <= k.instance
    {
      ComposeCells(prev, s, k);
      RollBackPointwise(db.objects, s, k);
      ComposeCellShape(db, prev, s, k);
    }
  }

  lemma ComposeCellShape<V>(db: Db<V>, prev: UndoState<V>, s: UndoState<V>, k: ObjectId)
    requires Records(db, s) && Records(RollBack(db, s), prev)
    ensures var c := Compose(prev, s);
      && (k in c.newIds ==> k in db.objects && k !in c.oldValues)
      && (k in c.oldValues ==> k in db.objects)
      && (k in c.removed ==> k !in db.objects)
      && (k in c.newIds ==> k.index in c.oldNextIds && c.oldNextIds[k.index] <= k.instance)
  {
    CausalTiming(db, prev, s);
    ComposeCells(prev, s, k);
    RollBackPointwise(db.objects, s, k);
  }

  // ------------------------------------------------------------------
  // Stacks of records

  /// The database as it was when each record was opened, oldest first.
  ghost function Snapshots<V>(db: Db<V>, stack: seq<UndoState<V>>): (r: seq<Db<V>>)
    ensures |r| == |stack|
    decreases |stack|
  {
    if stack == [] then []
    else
      var below := RollBack(db, stack[|stack| - 1]);
      Snapshots(below, stack[..|stack| - 1]) + [below]
  }

  ghost predicate StackRecords<V>(db: Db<V>, stack: seq<UndoState<V>>)
    decreases |stack|
  {
    && WellFormed(db)
    && (stack != [] ==>
          && Records(db, stack[|stack| - 1])
          && StackRecords(RollBack(db, stack[|stack| - 1]), stack[..|stack| - 1]))
  }

  /** Changing the database together with its newest record, without changing
      what they roll back to, changes no snapshot. */
  lemma SameSnapshots<V>(db: Db<V>, db': Db<V>, stack: seq<UndoState<V>>, top: UndoState<V>)
    requires stack != [] && StackRecords(db, stack)
    requires Records(db', top) && RollBack(db', top) == RollBack(db, stack[|stack| - 1])
    ensures var stack' := stack[..|stack| - 1] + [top];
            Snapshots(db', stack') == Snapshots(db, stack) && StackRecords(db', stack')
  {
    var stack' := stack[..|stack| - 1] + [top];
    assert stack'[..|stack'| - 1] == stack[..|stack| - 1];
  }

  lemma CreateTracked<V>(db: Db<V>, stack: seq<UndoState<V>>, index: nat, v: V)
    requires stack != [] && StackRecords(db, stack) && index in db.nextIds
    ensures var db' := CreateObject(db, index, v);
            var stack' := stack[..|stack| - 1] + [OnCreate(stack[|stack| - 1], ObjectId(index, db.nextIds[index]))];
            Snapshots(db', stack') == Snapshots(db, stack) && StackRecords(db', stack')
  {
    var top := stack[|stack| - 1];
    CreateRollsBack(db, top, index, v);
    SameSnapshots(db, CreateObject(db, index, v), stack, OnCreate(top, ObjectId(index, db.nextIds[index])));
  }

  lemma ModifyTracked<V>(db: Db<V>, stack: seq<UndoState<V>>, id: ObjectId, v: V)
    requires stack != [] && StackRecords(db, stack) && id in db.objects
    ensures var db' := db.(objects := db.objects[id := v]);
            var stack' := stack[..|stack| - 1] + [OnModify(stack[|stack| - 1], id, db.objects[id])];
            Snapshots(db', stack') == Snapshots(db, stack) && StackRecords(db', stack')
  {
    var top := stack[|stack| - 1];
    ModifyRollsBack(db, top, id, v);
    SameSnapshots(db, db.(objects := db.objects[id := v]), stack, OnModify(top, id, db.objects[id]));
  }

  lemma RemoveTracked<V>(db: Db<V>, stack: seq<UndoState<V>>, id: ObjectId)
    requires stack != [] && StackRecords(db, stack) && id in db.objects
    ensures var db' := db.(objects := db.objects - {id});
            var stack' := stack[..|stack| - 1] + [OnRemove(stack[|stack| - 1], id, db.objects[id])];
            Snapshots(db', stack') == Snapshots(db, stack) && StackRecords(db', stack')
  {
    var top := stack[|stack| - 1];
    RemoveRollsBack(db, top, id);
    SameSnapshots(db, db.(objects := db.objects - {id}), stack, OnRemove(top, id, db.objects[id]));
  }

  /** With no record on the stack there is nothing to keep consistent. */
  lemma UntrackedChange<V>(db: Db<V>, db': Db<V>)
    requires StackRecords(db, []) && WellFormed(db')
    ensures StackRecords(db', []) && Snapshots(db', []) == Snapshots(db, [])
  {
  }

  lemma CreateWellFormed<V>(db: Db<V>, index: nat, v: V)
    requires WellFormed(db) && index in db.nextIds
    ensures WellFormed(CreateObject(db, index, v))
  {
  }

  lemma PushSnapshot<V>(db: Db<V>, stack: seq<UndoState<V>>)
    requires StackRecords(db, stack)
    ensures var stack' := stack + [EmptyState()];
            Snapshots(db, stack') == Snapshots(db, stack) + [db] && StackRecords(db, stack')
  {
    NothingRecorded(db);
    var stack' := stack + [EmptyState<V>()];
    assert stack'[..|stack'| - 1] == stack;
  }

  /** Merging the two newest records drops the newest snapshot only. */
  lemma MergeDropsSnapshot<V>(db: Db<V>, stack: seq<UndoState<V>>)
    requires |stack| >= 2 && StackRecords(db, stack)
    ensures var n := |stack|;
            var stack' := stack[..n - 2] + [Compose(stack[n - 2], stack[n - 1])];
            Snapshots(db, stack') == Snapshots(db, stack)[..n - 1] && StackRecords(db, stack')
  {
    var n := |stack|;
    var mid := RollBack(db, stack[n - 1]);
    var below := stack[..n - 1];
    assert below[..n - 2] == stack[..n - 2];
    ComposeRollsBack(db, stack[n - 2], stack[n - 1]);
    var stack' := stack[..n - 2] + [Compose(stack[n - 2], stack[n - 1])];
    assert stack'[..n - 2] == stack[..n - 2];
  }

  /** Trimming the oldest record drops the oldest snapshot only. */
  lemma {:induction false} TrimDropsSnapshot<V>(db: Db<V>, stack: seq<UndoState<V>>)
    requires stack != [] && StackRecords(db, stack)
    ensures Snapshots(db, stack[1..]) == Snapshots(db, stack)[1..]
    ensures StackRecords(db, stack[1..])
    decreases |stack|
  {
    var n := |stack|;
    if n > 1 {
      var below := stack[..n - 1];
      TrimDropsSnapshot(RollBack(db, stack[n - 1]), below);
      assert stack[1..][..n - 2] == below[1..];
      assert stack[1..][n - 2] == stack[n - 1];
    }
  }
}
