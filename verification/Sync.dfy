/** Chain synchronization: get_blockchain_synopsis and get_block_ids in
    libraries/app/application.cpp. */
module Sync {
  import opened Options
  import opened Prices
  import opened ForkDatabase

  // ------------------------------------------------------------------
  // Which blocks a synopsis names

  /// The next block number: half of what is left, and at least one, further on.
  function Next(low: nat, top: nat): nat
    requires low <= top
  {
    low + (top - low + 2) / 2
  }

  /// The block numbers of a synopsis from `low` to `high` of a chain that goes on to `top`.
  function Numbers(low: nat, high: nat, top: nat): (r: seq<nat>)
    requires low <= high <= top
    ensures r != [] && r[0] == low
    decreases high - low
  {
    [low] + if Next(low, top) <= high then Numbers(Next(low, top), high, top) else []
  }

  /** Block numbers grow strictly and stay between the ends. */
  lemma {:induction false} NumbersIncrease(low: nat, high: nat, top: nat)
    requires low <= high <= top
    ensures forall i :: 0 <= i < |Numbers(low, high, top)| ==> low <= Numbers(low, high, top)[i] <= high
    ensures forall i, j :: 0 <= i < j < |Numbers(low, high, top)| ==> Numbers(low, high, top)[i] < Numbers(low, high, top)[j]
    decreases high - low
  {
    if Next(low, top) <= high {
      NumbersIncrease(Next(low, top), high, top);
      var rest := Numbers(Next(low, top), high, top);
      assert forall i :: 0 < i < |Numbers(low, high, top)| ==> Numbers(low, high, top)[i] == rest[i - 1];
    }
  }

  function Pow2(n: nat): (r: nat)
    ensures r > 0
  {
    if n == 0 then 1 else 2 * Pow2(n - 1)
  }

  /** A synopsis is short: over a span of d it has at most the binary logarithm of d + 2,
      rounded up, entries. */
  lemma {:induction false} NumbersAreFew(low: nat, high: nat, top: nat)
    requires low <= high <= top
    ensures Pow2(|Numbers(low, high, top)| - 1) < top - low + 2
    decreases high - low
  {
    if Next(low, top) <= high {
      NumbersAreFew(Next(low, top), high, top);
    }
  }

  /** And it has exactly that many when it goes to the end of the chain. */
  lemma {:induction false} NumbersAreManyEnough(low: nat, high: nat)
    requires low <= high
    ensures high - low + 2 <= Pow2(|Numbers(low, high, high)|)
    ensures Numbers(low, high, high)[|Numbers(low, high, high)| - 1] == high
    decreases high - low
  {
    if Next(low, high) <= high {
      NumbersAreManyEnough(Next(low, high), high);
    }
  }

  /** Wherever the chains part, a synopsis names a block not far below: the blocks from it
      to the end are at most twice those from the parting to the end. */
  lemma {:induction false} NearbyBelow(low: nat, high: nat, top: nat, c: nat) returns (i: nat)
    requires low <= c <= high <= top
    ensures i < |Numbers(low, high, top)|
    ensures var s := Numbers(low, high, top)[i]; s <= c && top - s <= 2 * (top - c)
    ensures i + 1 < |Numbers(low, high, top)| ==> c < Numbers(low, high, top)[i + 1]
    decreases high - low
  {
    if Next(low, top) <= c {
      i := NearbyBelow(Next(low, top), high, top, c);
      i := i + 1;
    } else {
      i := 0;
    }
  }

  // ------------------------------------------------------------------
  // Building it

  /// The preferred chain, block number n at position n - 1.
  ghost predicate IsChain(main: seq<BlockId>) {
    forall i :: 0 <= i < |main| ==> main[i].num == i + 1
  }

  /// A branch off the preferred chain after block `from`, oldest first.
  ghost predicate IsFork(main: seq<BlockId>, from: nat, fork: seq<BlockId>) {
    from <= |main| && fork != [] && forall i :: 0 <= i < |fork| ==> fork[i].num == from + 1 + i
  }

  /// The block of that number on the chain that leaves `main` after `from` for `fork`.
  function BlockAt(main: seq<BlockId>, from: nat, fork: seq<BlockId>, num: nat): BlockId
    requires 0 < num <= from + |fork| && from <= |main|
  {
    if num <= from then main[num - 1] else fork[num - from - 1]
  }

  ghost predicate InRange(nums: seq<nat>, high: nat) {
    forall i :: 0 <= i < |nums| ==> 0 < nums[i] <= high
  }

  /// The synopsis names the blocks of these numbers.
  ghost predicate Names(synopsis: seq<BlockId>, main: seq<BlockId>, from: nat, fork: seq<BlockId>, nums: seq<nat>)
    requires from <= |main| && InRange(nums, from + |fork|)
  {
    |synopsis| == |nums| && forall i :: 0 <= i < |nums| ==> synopsis[i] == BlockAt(main, from, fork, nums[i])
  }

  /// Every entry is the block of its number: of the preferred chain up to where the branch
  /// leaves it, and of the branch from there on.
  ghost predicate Numbered(synopsis: seq<BlockId>, main: seq<BlockId>, from: nat, fork: seq<BlockId>, nums: seq<nat>)
    requires from <= |main|
  {
    && |synopsis| == |nums|
    && forall i :: 0 <= i < |nums| ==>
      synopsis[i].num == nums[i] && if nums[i] <= from then synopsis[i] in main[..from] else synopsis[i] in fork
  }

  /** On chains that count their blocks, naming blocks is numbering them. */
  lemma NamesNumbered(synopsis: seq<BlockId>, main: seq<BlockId>, from: nat, fork: seq<BlockId>, nums: seq<nat>)
    requires IsChain(main) && from <= |main| && InRange(nums, from + |fork|) && (fork == [] || IsFork(main, from, fork))
    requires Names(synopsis, main, from, fork, nums)
    ensures Numbered(synopsis, main, from, fork, nums)
  {
    forall i | 0 <= i < |nums|
      ensures synopsis[i].num == nums[i] && if nums[i] <= from then synopsis[i] in main[..from] else synopsis[i] in fork
    {
      if nums[i] <= from {
        assert main[..from][nums[i] - 1] == synopsis[i];
      }
    }
  }

  lemma NumbersInRange(low: nat, high: nat, top: nat)
    requires 0 < low <= high <= top
    ensures InRange(Numbers(low, high, top), high)
  {
    NumbersIncrease(low, high, top);
  }

  /// The summary loop.
  method Summarize(main: seq<BlockId>, from: nat, fork: seq<BlockId>, low: nat, after: nat) returns (synopsis: seq<BlockId>)
    requires from <= |main| && 0 < low <= from + |fork| && (fork == [] || IsFork(main, from, fork))
    ensures IsChain(main) ==> Numbered(synopsis, main, from, fork, Numbers(low, from + |fork|, from + |fork| + after))
    ensures
      var high := from + |fork|;
      && InRange(Numbers(low, high, high + after), high)
      && Names(synopsis, main, from, fork, Numbers(low, high, high + after))
  {
    hide Numbers;
    hide InRange;
    hide Names;
    hide Numbered;
    hide IsChain;
    hide IsFork;
    var high := from + |fork|;
    var top := high + after;
    NumbersInRange(low, high, top);
    NamesNone(main, from, fork);
    synopsis := [];
    ghost var done: seq<nat> := [];
    var num := low;
    while num <= high
      invariant low <= num && InRange(done, high) && Names(synopsis, main, from, fork, done)
      invariant Numbers(low, high, top) == done + if num <= high then Numbers(num, high, top) else []
      decreases top + 2 - num
    {
      Unfold(done, num, high, top);
      NamesMore(synopsis, main, from, fork, done, num);
      synopsis := synopsis + [BlockAt(main, from, fork, num)];
      done := done + [num];
      num := Next(num, top);
    }
    assert done == Numbers(low, high, top);
    if IsChain(main) { NamesNumbered(synopsis, main, from, fork, done); }
  }

  lemma NamesNone(main: seq<BlockId>, from: nat, fork: seq<BlockId>)
    requires from <= |main|
    ensures InRange([], from + |fork|) && Names([], main, from, fork, [])
  {
  }

  lemma NamesMore(synopsis: seq<BlockId>, main: seq<BlockId>, from: nat, fork: seq<BlockId>, nums: seq<nat>, num: nat)
    requires from <= |main| && InRange(nums, from + |fork|) && Names(synopsis, main, from, fork, nums) && 0 < num <= from + |fork|
    ensures InRange(nums + [num], from + |fork|)
    ensures Names(synopsis + [BlockAt(main, from, fork, num)], main, from, fork, nums + [num])
  {
  }

  lemma Unfold(done: seq<nat>, num: nat, high: nat, top: nat)
    requires num <= high <= top
    ensures done + Numbers(num, high, top)
         == done + [num] + if Next(num, top) <= high then Numbers(Next(num, top), high, top) else []
  {
  }

  /// What get_block_ids_on_fork found: the block the branch leaves the preferred chain
  /// after, zero for none, and the branch.
  datatype Branch = Branch(from: nat, blocks: seq<BlockId>)

  /// The block is on the preferred chain; asking for a number the chain does not have
  /// throws.
  function Included(main: seq<BlockId>, id: BlockId): Option<bool> {
    if 0 < id.num <= |main| then Some(main[id.num - 1] == id) else None
  }

  /** Of a chain that counts its blocks: exactly its own are included. */
  lemma IncludedMeans(main: seq<BlockId>, id: BlockId)
    requires IsChain(main)
    ensures Included(main, id) == Some(true) <==> id in main
    ensures Included(main, id).None? <==> id.num == 0 || id.num > |main|
  {
    if id in main {
      var i :| 0 <= i < |main| && main[i] == id;
      assert id.num == i + 1;
    }
  }

  /// A synopsis of the chain up to a reference point, or of the whole chain.
  /// `undoable` is the last block that cannot be undone, `branch` what is known of the
  /// reference point when it is on a fork.
  method GetSynopsis(main: seq<BlockId>, undoable: nat, reference: BlockId, branch: Option<Branch>, after: nat)
    returns (r: Option<seq<BlockId>>)
    requires undoable <= |main|
    requires branch.Some? ==> IsFork(main, branch.value.from, branch.value.blocks)
    ensures r.Some? && main != [] && (reference == ZERO || Included(main, reference) == Some(true)) ==>
      var high := if reference == ZERO then |main| else reference.num;
      var low := Max(1, Min(undoable, high));
      && InRange(Numbers(low, high, high + after), high) && Names(r.value, main, high, [], Numbers(low, high, high + after))
      && (IsChain(main) ==> Numbered(r.value, main, high, [], Numbers(low, high, high + after)))
    ensures r.Some? && reference != ZERO && Included(main, reference) == Some(false) ==>
      && branch.Some? && undoable <= branch.value.from
      && var (from, fork) := (branch.value.from, branch.value.blocks);
         var high, low := from + |fork|, Max(1, undoable);
         && InRange(Numbers(low, high, high + after), high) && Names(r.value, main, from, fork, Numbers(low, high, high + after))
         && (IsChain(main) ==> Numbered(r.value, main, from, fork, Numbers(low, high, high + after)))
    ensures reference == ZERO && main == [] ==> r == Some([])
    ensures r.None? <==>
      && reference != ZERO
      && (Included(main, reference).None?
          || (Included(main, reference) == Some(false) && (branch.None? || branch.value.from < undoable)))
  {
    hide Numbers;
    hide InRange;
    hide Names;
    hide Numbered;
    hide IsChain;
    var low := undoable;
    var from, fork := |main|, [];
    if reference != ZERO {
      var included := Included(main, reference);
      if included.None? {
        return None;
      }
      if included.value {
        from := reference.num;
        if reference.num < low {
          low := reference.num;
        }
      } else {
        if branch.None? {
          return None;
        }
        from, fork := branch.value.from, branch.value.blocks;
        if from < low {
          return None;
        }
      }
    } else if main == [] {
      return Some([]);
    }
    if low == 0 {
      low := 1;
    }
    var synopsis := Summarize(main, from, fork, low, after);
    return Some(synopsis);
  }

  // ------------------------------------------------------------------
  // Answering it

  /// The responder takes this entry for a block both have.
  predicate Recognized(main: seq<BlockId>, known: set<BlockId>, id: BlockId) {
    id == ZERO || (id in known && Included(main, id) == Some(true))
  }

  /// Looking the entry up throws: it is on a branch longer than the preferred chain.
  predicate TooHigh(main: seq<BlockId>, known: set<BlockId>, id: BlockId) {
    id != ZERO && id in known && Included(main, id).None?
  }

  /// The last entry of the synopsis that is recognized, none after it being too high.
  ghost predicate IsLastRecognized(main: seq<BlockId>, known: set<BlockId>, synopsis: seq<BlockId>, i: nat) {
    && i < |synopsis| && Recognized(main, known, synopsis[i])
    && forall j :: i < j < |synopsis| ==> !Recognized(main, known, synopsis[j]) && !TooHigh(main, known, synopsis[j])
  }

  /// The search from the end.
  method LastRecognized(main: seq<BlockId>, known: set<BlockId>, synopsis: seq<BlockId>) returns (r: Option<nat>)
    ensures r.Some? ==> IsLastRecognized(main, known, synopsis, r.value)
    ensures r.None? ==> forall i: nat :: !IsLastRecognized(main, known, synopsis, i)
  {
    hide Recognized;
    hide TooHigh;
    var i := |synopsis|;
    while i > 0
      invariant 0 <= i <= |synopsis|
      invariant forall j :: i <= j < |synopsis| ==> !Recognized(main, known, synopsis[j]) && !TooHigh(main, known, synopsis[j])
    {
      i := i - 1;
      NotBoth(main, known, synopsis[i]);
      if TooHigh(main, known, synopsis[i]) {
        return None;
      }
      if Recognized(main, known, synopsis[i]) {
        return Some(i);
      }
    }
    return None;
  }

  lemma NotBoth(main: seq<BlockId>, known: set<BlockId>, id: BlockId)
    ensures !(Recognized(main, known, id) && TooHigh(main, known, id))
  {
  }

  /// The peer has no blocks.
  predicate Blank(synopsis: seq<BlockId>) { synopsis == [] || synopsis == [ZERO] }

  /// The block the reply starts from, zero for the beginning of the chain.
  ghost predicate StartsAt(main: seq<BlockId>, known: set<BlockId>, synopsis: seq<BlockId>, start: nat) {
    if Blank(synopsis) then start == 0
    else exists i: nat :: IsLastRecognized(main, known, synopsis, i) && start == synopsis[i].num
  }

  /// get_block_ids.  `known` are the blocks the responder has, on any branch.
  method GetBlockIds(main: seq<BlockId>, known: set<BlockId>, synopsis: seq<BlockId>, limit: nat)
    returns (ok: bool, ids: seq<BlockId>, remaining: nat)
    requires IsChain(main)
    ensures main == [] ==> ok && ids == [] && remaining == 0
    ensures main != [] ==> (ok <==> exists start: nat :: StartsAt(main, known, synopsis, start))
    ensures main != [] && ok ==> exists start: nat ::
      && StartsAt(main, known, synopsis, start) && start <= |main|
      && ids == main[Max(start, 1) - 1..Min(Max(start, 1) - 1 + limit, |main|)]
    ensures main != [] && ok && limit > 0 ==> ids != [] && ids[|ids| - 1].num + remaining == |main|
  {
    hide IsLastRecognized;
    if main == [] {
      return true, [], 0;
    }
    var last := 0;
    if !Blank(synopsis) {
      var found := LastRecognized(main, known, synopsis);
      if found.None? {
        return false, [], 0;
      }
      RecognizedIsLow(main, known, synopsis, found.value);
      last := synopsis[found.value].num;
    }
    assert StartsAt(main, known, synopsis, last);
    ids := Segment(main, last, limit);
    remaining := 0;
    if ids != [] && ids[|ids| - 1].num < |main| {
      remaining := |main| - ids[|ids| - 1].num;
    }
    return true, ids, remaining;
  }

  lemma RecognizedIsLow(main: seq<BlockId>, known: set<BlockId>, synopsis: seq<BlockId>, i: nat)
    requires IsLastRecognized(main, known, synopsis, i)
    ensures i < |synopsis| && synopsis[i].num <= |main|
  {
  }

  /// The ids from block `start` on, at most `limit` of them.
  method Segment(main: seq<BlockId>, start: nat, limit: nat) returns (ids: seq<BlockId>)
    requires start <= |main| && main != []
    ensures ids == main[Max(start, 1) - 1..Min(Max(start, 1) - 1 + limit, |main|)]
  {
    ids := [];
    var num := start;
    while num <= |main| && |ids| < limit
      invariant start <= num <= |main| + 1 && |ids| <= limit
      invariant num == 0 ==> ids == []
      invariant num > 0 ==> num - 1 >= Max(start, 1) - 1 && ids == main[Max(start, 1) - 1..num - 1]
      decreases |main| + 1 - num
    {
      if num > 0 {
        ids := ids + [main[num - 1]];
      }
      num := num + 1;
    }
  }

  // ------------------------------------------------------------------
  // Together

  /** The chains of two nodes agree up to block `c` and no further.  The responder starts
      its reply at the highest block of the synopsis that both have, and what is sent
      again is no more than what the requester does not share. */
  lemma ReplyStartsNearParting(mine: seq<BlockId>, theirs: seq<BlockId>, known: set<BlockId>, synopsis: seq<BlockId>,
                               low: nat, after: nat, c: nat, i: nat)
    requires IsChain(mine) && IsChain(theirs) && (forall id <- theirs :: id in known)
    requires 0 < low <= c <= |mine| && c <= |theirs| && mine[..c] == theirs[..c]
    requires forall n :: c <= n < |mine| && n < |theirs| ==> mine[n] != theirs[n]
    requires InRange(Numbers(low, |mine|, |mine| + after), |mine|)
    requires Names(synopsis, mine, |mine|, [], Numbers(low, |mine|, |mine| + after))
    requires IsLastRecognized(theirs, known, synopsis, i)
    ensures synopsis[i].num <= c && c - synopsis[i].num <= |mine| + after - c
    ensures forall j :: 0 <= j < |synopsis| && synopsis[j].num <= c ==> j <= i
  {
    var top := |mine| + after;
    var nums := Numbers(low, |mine|, top);
    NumbersIncrease(low, |mine|, top);
    forall j | 0 <= j < |synopsis| ensures Recognized(theirs, known, synopsis[j]) <==> synopsis[j].num <= c {
      var n := nums[j];
      assert synopsis[j] == mine[n - 1];
      if n <= c {
        assert mine[n - 1] == mine[..c][n - 1] == theirs[..c][n - 1] == theirs[n - 1];
        assert theirs[n - 1] in theirs;
      }
    }
    var k := NearbyBelow(low, |mine|, top, c);
    assert synopsis[k].num == nums[k];
    assert k + 1 < |nums| ==> nums[k + 1] > c;
    assert forall j :: k < j < |nums| ==> nums[k + 1] <= nums[j];
  }
}
