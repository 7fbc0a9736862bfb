/** Witness slots and the shuffle: db_witness_schedule.cpp. */
module WitnessSchedule {
  import opened Prices

  type Witness = nat

  // ------------------------------------------------------------------
  // Slots and times

  /// What slot times depend on; times are in seconds.
  datatype Clock = Clock(headNum: nat, headTime: nat, interval: nat, maintenance: bool, skipSlots: nat) {
    predicate Valid() { interval > 0 }

    /// The time from which slots are counted.
    function Base(): nat
      requires Valid()
    {
      if headNum == 0 then headTime
      else headTime / interval * interval + if maintenance then skipSlots * interval else 0
    }

    /// get_slot_time
    function SlotTime(slot: nat): nat
      requires Valid()
    {
      if slot == 0 then 0
      else if headNum == 0 then headTime + slot * interval
      else headTime / interval * interval + (slot + if maintenance then skipSlots else 0) * interval
    }

    /// get_slot_at_time
    function SlotAt(time: nat): nat
      requires Valid()
    {
      if time < SlotTime(1) then 0 else (time - SlotTime(1)) / interval + 1
    }
  }

  lemma SlotTimeFromBase(c: Clock, slot: nat)
    requires c.Valid() && slot > 0
    ensures c.SlotTime(slot) == c.Base() + slot * c.interval
  {
    if c.maintenance {
      assert (slot + c.skipSlots) * c.interval == slot * c.interval + c.skipSlots * c.interval;
    }
  }

  /** Slot numbers and slot times are inverse, with and without the maintenance skip. */
  lemma SlotOfSlotTime(c: Clock, slot: nat)
    requires c.Valid() && slot > 0
    ensures c.SlotAt(c.SlotTime(slot)) == slot
  {
    SlotTimeFromBase(c, slot);
    SlotTimeFromBase(c, 1);
    var n := slot - 1;
    assert slot * c.interval == n * c.interval + c.interval;
    DivisionBounds(n * c.interval, c.interval);
    var q := n * c.interval / c.interval;
    ProductLess(q, n, c.interval);
    ProductLess(n, q, c.interval);
  }

  /** A moment belongs to the slot whose time it has reached and whose successor's it has
      not; it belongs to none exactly when the first slot is still to come. */
  lemma SlotOfTime(c: Clock, time: nat)
    requires c.Valid()
    ensures c.SlotAt(time) == 0 <==> time < c.SlotTime(1)
    ensures c.SlotAt(time) > 0 ==> c.SlotTime(c.SlotAt(time)) <= time < c.SlotTime(c.SlotAt(time) + 1)
  {
    if time >= c.SlotTime(1) {
      var k := (time - c.SlotTime(1)) / c.interval;
      SlotTimeFromBase(c, 1);
      SlotTimeFromBase(c, k + 1);
      SlotTimeFromBase(c, k + 2);
      DivisionBounds(time - c.SlotTime(1), c.interval);
      assert (k + 1) * c.interval == k * c.interval + c.interval && (k + 2) * c.interval == k * c.interval + 2 * c.interval;
    }
  }

  /** Slots follow one another at the interval.  The first one comes an interval after genesis;
      later it is the first whole multiple of the interval after the head block, put off by
      the slots that maintenance skips. */
  lemma FirstSlot(c: Clock, slot: nat)
    requires c.Valid() && slot > 0
    ensures c.SlotTime(0) == 0 && c.SlotTime(slot + 1) == c.SlotTime(slot) + c.interval
    ensures c.headNum == 0 ==> c.SlotTime(1) == c.headTime + c.interval
    ensures c.headNum > 0 ==>
      var first := c.SlotTime(1) - if c.maintenance then c.skipSlots * c.interval else 0;
      c.headTime < first <= c.headTime + c.interval && exists k: nat :: first == Multiple(k, c.interval)
  {
    SlotTimeFromBase(c, slot);
    SlotTimeFromBase(c, slot + 1);
    SlotTimeFromBase(c, 1);
    assert (slot + 1) * c.interval == slot * c.interval + c.interval;
    DivisionBounds(c.headTime, c.interval);
    var k := c.headTime / c.interval + 1;
    assert Multiple(k, c.interval) == c.headTime / c.interval * c.interval + c.interval;
  }

  function Multiple(k: nat, n: nat): nat { k * n }

  // ------------------------------------------------------------------
  // The shuffle

  /// The words the random generator yields for positions 0, 1, 2, ...
  type Generator = nat -> nat

  function Swap<T>(s: seq<T>, i: nat, j: nat): (r: seq<T>)
    requires i < |s| && j < |s|
    ensures |r| == |s|
  {
    s[i := s[j]][j := s[i]]
  }

  lemma SwapKeepsElements<T>(s: seq<T>, i: nat, j: nat)
    requires i < |s| && j < |s|
    ensures multiset(Swap(s, i, j)) == multiset(s)
  {
  }

  /// The exchange at position `i`: with some position from `i` on.
  function Pick(words: Generator, i: nat, n: nat): (j: nat)
    requires i < n
    ensures i <= j < n
  {
    i + words(i) % (n - i)
  }

  function ShuffleFrom(s: seq<Witness>, i: nat, words: Generator): (r: seq<Witness>)
    requires i <= |s|
    ensures |r| == |s|
    decreases |s| - i
  {
    if i == |s| then s else ShuffleFrom(Swap(s, i, Pick(words, i, |s|)), i + 1, words)
  }

  /** Whatever the seed, the shuffle is a permutation. */
  lemma {:induction false} ShuffleIsPermutation(s: seq<Witness>, i: nat, words: Generator)
    requires i <= |s|
    ensures multiset(ShuffleFrom(s, i, words)) == multiset(s)
    decreases |s| - i
  {
    if i < |s| {
      var j := Pick(words, i, |s|);
      SwapKeepsElements(s, i, j);
      ShuffleIsPermutation(Swap(s, i, j), i + 1, words);
    }
  }

  lemma {:induction false} SameWords(s: seq<Witness>, i: nat, words: Generator, more: Generator)
    requires i <= |s| && forall n: nat :: n >= i ==> words(n) == more(n)
    ensures ShuffleFrom(s, i, words) == ShuffleFrom(s, i, more)
    decreases |s| - i
  {
    if i < |s| { SameWords(Swap(s, i, Pick(words, i, |s|)), i + 1, words, more); }
  }

  lemma RestOf(s: seq<Witness>, i: nat)
    requires i <= |s|
    ensures multiset(s[i..]) == multiset(s) - multiset(s[..i])
  {
    assert s == s[..i] + s[i..];
  }

  lemma FindRest(s: seq<Witness>, target: seq<Witness>, i: nat) returns (j: nat)
    requires multiset(s) == multiset(target) && i < |s| == |target| && s[..i] == target[..i]
    ensures i <= j < |s| && s[j] == target[i]
  {
    RestOf(s, i);
    RestOf(target, i);
    assert target[i] == target[i..][0] && target[i] in multiset(target[i..]);
    assert target[i] in s[i..];
    var k :| 0 <= k < |s[i..]| && s[i..][k] == target[i];
    j := i + k;
  }

  /** No order is excluded: every permutation comes from some words. */
  lemma {:induction false} EveryOrderIsPossible(s: seq<Witness>, target: seq<Witness>, i: nat) returns (words: Generator)
    requires multiset(s) == multiset(target) && i <= |s| == |target| && s[..i] == target[..i]
    ensures ShuffleFrom(s, i, words) == target
    decreases |s| - i
  {
    hide Swap;
    words := (n: nat) => 0;
    if i == |s| {
      assert s == s[..i] && target == target[..i];
    } else {
      var j := FindRest(s, target, i);
      var next := Swap(s, i, j);
      SwapKeepsElements(s, i, j);
      Placed(s, target, i, j);
      var rest := EveryOrderIsPossible(next, target, i + 1);
      words := (n: nat) => if n == i then j - i else rest(n);
      SmallModulus(j - i, |s| - i);
      SameWords(next, i + 1, words, rest);
    }
  }

  lemma Placed(s: seq<Witness>, target: seq<Witness>, i: nat, j: nat)
    requires i <= j < |s| == |target| && s[..i] == target[..i] && s[j] == target[i]
    ensures Swap(s, i, j)[..i + 1] == target[..i + 1]
  {
    forall k | 0 <= k < i ensures s[k] == target[k] {
      assert s[..i][k] == target[..i][k];
    }
  }

  lemma SmallModulus(x: nat, n: nat)
    requires x < n
    ensures x % n == x
  {
  }

  /// The in-place loop.
  method Shuffle(a: array<Witness>, words: Generator)
    modifies a
    ensures a[..] == ShuffleFrom(old(a[..]), 0, words)
    ensures multiset(a[..]) == multiset(old(a[..]))
  {
    ghost var start := a[..];
    for i := 0 to a.Length
      invariant ShuffleFrom(a[..], i, words) == ShuffleFrom(start, 0, words)
    {
      var j := Pick(words, i, a.Length);
      SwapInPlace(a, i, j);
    }
    ShuffleIsPermutation(start, 0, words);
  }

  method SwapInPlace(a: array<Witness>, i: nat, j: nat)
    requires i < a.Length && j < a.Length
    modifies a
    ensures a[..] == Swap(old(a[..]), i, j)
  {
    a[i], a[j] := a[j], a[i];
  }

  // ------------------------------------------------------------------
  // The schedule

  ghost predicate Distinct(s: seq<Witness>) {
    forall i, j :: 0 <= i < j < |s| ==> s[i] != s[j]
  }

  /// The schedule names every active witness once.
  ghost predicate IsScheduleOf(s: seq<Witness>, active: set<Witness>) {
    Distinct(s) && forall w :: w in s <==> w in active
  }

  lemma PermutedSchedule(s: seq<Witness>, active: set<Witness>)
    requires multiset(s) == multiset(active)
    ensures IsScheduleOf(s, active)
  {
    forall w ensures w in s <==> w in active {
      assert w in multiset(s) <==> w in multiset(active);
    }
    forall i, j | 0 <= i < j < |s| ensures s[i] != s[j] {
      RepeatedElement(s, i, j);
    }
  }

  lemma RepeatedElement(s: seq<Witness>, i: nat, j: nat)
    requires i < j < |s|
    ensures s[i] == s[j] ==> multiset(s)[s[i]] >= 2
  {
    assert s == s[..i] + [s[i]] + s[i + 1..];
    assert s[j] == s[i + 1..][j - i - 1] && s[j] in multiset(s[i + 1..]);
    assert multiset(s)[s[i]] == multiset(s[..i])[s[i]] + 1 + multiset(s[i + 1..])[s[i]];
  }

  /// get_scheduled_witness
  function Scheduled(s: seq<Witness>, aslot: nat, slot: nat): (w: Witness)
    requires s != []
    ensures w in s
  {
    s[(aslot + slot) % |s|]
  }

  lemma SmallRemainders(x: nat, d: nat, n: nat)
    requires 0 < d < n
    ensures x % n != (x + d) % n
  {
    var q, r := x / n, (x + d) / n;
    assert x == q * n + x % n && x + d == r * n + (x + d) % n;
    ProductLess(q, r, n);
    ProductLess(r, q, n);
  }

  /** Fewer than N slots apart, the witnesses differ. */
  lemma NearbySlotsDiffer(s: seq<Witness>, aslot: nat, i: nat, j: nat)
    requires Distinct(s) && s != [] && i < j < i + |s|
    ensures Scheduled(s, aslot, i) != Scheduled(s, aslot, j)
  {
    SmallRemainders(aslot + i, j - i, |s|);
  }

  /** Any N consecutive slots name each of the N witnesses, exactly once. */
  lemma EveryWitnessOnce(s: seq<Witness>, aslot: nat, first: nat, w: Witness)
    requires Distinct(s) && w in s
    ensures exists i :: first <= i < first + |s| && Scheduled(s, aslot, i) == w
    ensures forall i, j :: first <= i < first + |s| && first <= j < first + |s| && Scheduled(s, aslot, i) == w == Scheduled(s, aslot, j) ==> i == j
  {
    var n := |s|;
    var k :| 0 <= k < n && s[k] == w;
    var start := (aslot + first) % n;
    var d := if k >= start then k - start else k + n - start;
    RemainderAfter(aslot + first, d, n, k);
    assert Scheduled(s, aslot, first + d) == w;
    forall i, j | first <= i < first + n && first <= j < first + n && Scheduled(s, aslot, i) == w == Scheduled(s, aslot, j)
      ensures i == j
    {
      if i < j { NearbySlotsDiffer(s, aslot, i, j); } else if j < i { NearbySlotsDiffer(s, aslot, j, i); }
    }
  }

  lemma RemainderAfter(x: nat, d: nat, n: nat, k: nat)
    requires n > 0 && k < n && (x % n + d == k || x % n + d == k + n)
    ensures (x + d) % n == k
  {
    var m := if x % n + d == k then x / n else x / n + 1;
    assert x + d == m * n + k by {
      assert x == x / n * n + x % n;
      assert (x / n + 1) * n == x / n * n + n;
    }
    SameQuotient(m, n, k);
  }

  lemma SameQuotient(m: nat, n: nat, k: nat)
    requires k < n
    ensures (m * n + k) % n == k
  {
    var r := (m * n + k) / n;
    DivisionBounds(m * n + k, n);
    ProductLess(r, m, n);
    ProductLess(m, r, n);
  }

  class Schedule {
    var shuffled: seq<Witness>
    var missed: map<Witness, nat>

    /// update_witness_schedule: a new order once per round of blocks.
    method Update(active: set<Witness>, headNum: nat, words: Generator)
      requires active != {}
      modifies this`shuffled
      ensures headNum % |active| == 0 ==> IsScheduleOf(shuffled, active)
      ensures headNum % |active| != 0 ==> shuffled == old(shuffled)
    {
      if headNum % |active| != 0 {
        return;
      }
      var order := Listed(active);
      var a := new Witness[|order|](i requires 0 <= i < |order| => order[i]);
      assert a[..] == order;
      Shuffle(a, words);
      PermutedSchedule(a[..], active);
      shuffled := a[..];
    }

    /// update_witness_missed_blocks: charges the witnesses of the slots skipped, unless a
    /// whole round was missed.  No witness is charged twice for one block.
    method UpdateMissed(c: Clock, aslot: nat, time: nat) returns (ok: bool, r: nat)
      requires c.Valid() && shuffled != [] && Distinct(shuffled) && (forall w <- shuffled :: w in missed)
      modifies this`missed
      ensures ok <==> time >= c.SlotTime(1)
      ensures !ok ==> missed == old(missed)
      ensures ok ==> r == c.SlotAt(time) - 1 && missed.Keys == old(missed).Keys
      ensures ok ==> forall w <- missed :: missed[w] == old(missed)[w] + Charge(shuffled, aslot, r, w)
    {
      if c.SlotAt(time) == 0 {
        return false, 0;
      }
      ok, r := true, c.SlotAt(time) - 1;
      if r < |shuffled| {
        for i := 0 to r
          invariant missed.Keys == old(missed).Keys
          invariant forall w <- missed :: missed[w] == old(missed)[w] + Charge(shuffled, aslot, i, w)
        {
          var w := Scheduled(shuffled, aslot, i + 1);
          OneMoreCharge(shuffled, aslot, i);
          missed := missed[w := missed[w] + 1];
        }
      }
    }
  }

  /// One for each witness of the slots 1 to `r`, none after a whole round.
  ghost function Charge(s: seq<Witness>, aslot: nat, r: nat, w: Witness): nat
    requires s != []
  {
    if r < |s| && exists i :: 1 <= i <= r && Scheduled(s, aslot, i) == w then 1 else 0
  }

  lemma OneMoreCharge(s: seq<Witness>, aslot: nat, i: nat)
    requires s != [] && Distinct(s) && i + 1 < |s|
    ensures forall w :: Charge(s, aslot, i + 1, w) == Charge(s, aslot, i, w) + if w == Scheduled(s, aslot, i + 1) then 1 else 0
  {
    forall j | 1 <= j <= i ensures Scheduled(s, aslot, j) != Scheduled(s, aslot, i + 1) {
      NearbySlotsDiffer(s, aslot, j, i + 1);
    }
  }

  /// The active witnesses in some order.
  method Listed(active: set<Witness>) returns (order: seq<Witness>)
    ensures multiset(order) == multiset(active) && |order| == |active|
  {
    order := [];
    var todo := active;
    while todo != {}
      invariant todo <= active && multiset(order) + multiset(todo) == multiset(active) && |order| + |todo| == |active|
      decreases |todo|
    {
      var w :| w in todo;
      order := order + [w];
      todo := todo - {w};
    }
  }
}
