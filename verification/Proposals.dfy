/** Proposed transactions that update, delete and create proposals: proposal_evaluator.cpp
    and push_proposal in db_block.cpp. */
module Proposals {
  import opened Options

  /// Operations as far as proposals are concerned; the effect of the others is a parameter.
  datatype Op =
    | Update(id: nat, change: Change)
    | Delete(id: nat, who: nat)
    | Create(ops: seq<Op>, expiration: nat, review: Option<nat>)
    | Other(code: int)

  /// Approvals of accounts and of keys that come and go.
  datatype Change = Change(approve: set<nat>, revoke: set<nat>, addKeys: set<nat>, removeKeys: set<nat>)

  /// `reviewFrom` is the time from which no new approvals are taken, if there is one.
  datatype Proposal = Proposal(
    ops: seq<Op>, expiration: nat, reviewFrom: Option<nat>, approvals: set<nat>, keys: set<nat>, failed: bool)

  /// `rest` stands for all other objects.
  datatype World = World(proposals: map<nat, Proposal>, next: nat, rest: map<nat, int>)

  // ------------------------------------------------------------------
  // The visitor

  /// The proposals updated or deleted anywhere in the tree.
  function Touched(ops: seq<Op>): set<nat>
    decreases ops
  {
    if ops == [] then {} else TouchedBy(ops[0]) + Touched(ops[1..])
  }

  function TouchedBy(op: Op): set<nat>
    decreases op
  {
    match op
    case Update(id, _) => {id}
    case Delete(id, _) => {id}
    case Create(ops, _, _) => Touched(ops)
    case Other(_) => {}
  }

  lemma {:induction false} TouchedByMember(ops: seq<Op>, i: nat)
    requires i < |ops|
    ensures TouchedBy(ops[i]) <= Touched(ops)
  {
    if i > 0 { TouchedByMember(ops[1..], i - 1); }
  }

  /// hardfork_visitor_1479: counts updates and deletions, and keeps the highest id.
  class Visitor {
    var count: nat
    var max: nat
    ghost var seen: set<nat>

    ghost predicate Valid()
      reads this
    {
      && (count == 0 <==> seen == {})
      && (seen != {} ==> max in seen && forall u <- seen :: u <= max)
    }

    constructor ()
      ensures Valid() && seen == {}
    {
      count, max, seen := 0, 0, {};
    }

    method Note(id: nat)
      requires Valid()
      modifies this
      ensures Valid() && seen == old(seen) + {id}
    {
      if count == 0 || id > max {
        max := id;
      }
      count := count + 1;
      seen := seen + {id};
    }

    method Visit(op: Op)
      requires Valid()
      modifies this
      ensures Valid() && seen == old(seen) + TouchedBy(op)
      decreases op
    {
      match op {
        case Update(id, _) => Note(id);
        case Delete(id, _) => Note(id);
        case Create(ops, _, _) => VisitAll(ops);
        case Other(_) =>
      }
    }

    method VisitAll(ops: seq<Op>)
      requires Valid()
      modifies this
      ensures Valid() && seen == old(seen) + Touched(ops)
      decreases ops
    {
      if ops != [] {
        Visit(ops[0]);
        VisitAll(ops[1..]);
      }
    }
  }

  /// proposal_operation_hardfork_visitor: at most one update directly in any proposal.
  predicate OneUpdateEach(ops: seq<Op>)
    decreases ops
  {
    Updates(ops) <= 1 && forall op <- ops :: op.Create? ==> OneUpdateEach(op.ops)
  }

  /** That is, in no proposal of the tree are there two updates side by side. */
  lemma {:induction false} NoTwoUpdates(ops: seq<Op>, i: nat, j: nat)
    requires OneUpdateEach(ops) && i < j < |ops|
    ensures !(ops[i].Update? && ops[j].Update?)
  {
    if ops[i].Update? && ops[j].Update? {
      UpdatesFrom(ops, i);
      UpdatesFrom(ops[i + 1..], j - i - 1);
    }
  }

  lemma {:induction false} UpdatesFrom(ops: seq<Op>, i: nat)
    requires i < |ops|
    ensures Updates(ops) >= (if ops[i].Update? then 1 else 0) + Updates(ops[i + 1..])
  {
    if i > 0 {
      UpdatesFrom(ops[1..], i - 1);
      assert ops[1..][i..] == ops[i + 1..];
    }
  }

  /// The visitor that counts them.
  method CheckUpdates(ops: seq<Op>) returns (ok: bool)
    ensures ok <==> OneUpdateEach(ops)
    decreases ops
  {
    var count := 0;
    for i := 0 to |ops|
      invariant count + Updates(ops[i..]) == Updates(ops)
      invariant forall j :: 0 <= j < i && ops[j].Create? ==> OneUpdateEach(ops[j].ops)
    {
      assert ops[i..][1..] == ops[i + 1..];
      if ops[i].Update? {
        count := count + 1;
      } else if ops[i].Create? {
        var nested := CheckUpdates(ops[i].ops);
        if !nested {
          assert ops[i] in ops;
          return false;
        }
      }
    }
    return count <= 1;
  }

  function Updates(ops: seq<Op>): nat {
    if ops == [] then 0 else (if ops[0].Update? then 1 else 0) + Updates(ops[1..])
  }

  // ------------------------------------------------------------------
  // Order

  /// Everything the operations touch is below `limit`.
  ghost predicate Below(ops: seq<Op>, limit: nat) {
    forall u <- Touched(ops) :: u < limit
  }

  lemma BelowSplits(ops: seq<Op>, limit: nat)
    requires ops != [] && Below(ops, limit)
    ensures (forall u <- TouchedBy(ops[0]) :: u < limit) && Below(ops[1..], limit)
  {
    assert TouchedBy(ops[0]) <= Touched(ops) && Touched(ops[1..]) <= Touched(ops);
  }

  /// Every proposal touches only older ones.
  ghost predicate WellOrdered(w: World) {
    forall p <- w.proposals :: p < w.next && Below(w.proposals[p].ops, p)
  }

  /// Proposals from `limit` on are as they were; new ones have new ids.
  ghost predicate Spares(s: World, t: World, limit: nat) {
    && s.next <= t.next
    && (forall p <- s.proposals :: p >= limit ==> p in t.proposals && t.proposals[p] == s.proposals[p])
    && forall p <- t.proposals :: p in s.proposals || s.next <= p < t.next
  }

  lemma SparesTransitive(s: World, t: World, u: World, limit: nat)
    requires Spares(s, t, limit) && Spares(t, u, limit)
    ensures Spares(s, u, limit)
  {
  }

  function Approved(p: Proposal, c: Change): Proposal {
    p.(approvals := p.approvals + c.approve - c.revoke, keys := p.keys + c.addKeys - c.removeKeys)
  }

  /// What executing operations depends on besides the proposals.
  datatype Rules = Rules(
    now: nat,
    /// maximum_proposal_lifetime
    maxLifetime: nat,
    /// committee_proposal_review_period
    minReview: nat,
    /// A committee has to approve.
    committee: seq<Op> -> bool,
    /// The operations are valid and need no authorities but those of accounts.
    valid: seq<Op> -> bool,
    /// Twice the number of active witnesses.
    maxNesting: nat,
    /// is_authorized_to_execute
    authorized: (World, nat) -> bool,
    /// The account is among those whose approval the proposal requires.
    mayDelete: (World, nat, nat) -> bool,
    /// The other operations: a new state, or an exception.
    effect: (map<nat, int>, int) -> Option<map<nat, int>>)

  // ------------------------------------------------------------------
  // The meaning of operations: a new state, or an exception

  /// The checks of proposal_create besides the one on ids.
  predicate MayPropose(x: Rules, ops: seq<Op>, expiration: nat, review: Option<nat>) {
    && OneUpdateEach(ops) && x.now < expiration <= x.now + x.maxLifetime
    && (review.Some? ==> review.value < expiration - x.now)
    && (x.committee(ops) ==> review.Some? && review.value >= x.minReview)
    && x.valid(ops)
  }

  /// The checks of proposal_update: under review no account approves, and only approvals
  /// that are there are revoked.
  predicate MayChange(x: Rules, p: Proposal, c: Change) {
    (p.reviewFrom.Some? && x.now >= p.reviewFrom.value ==> c.approve == {}) && c.revoke <= p.approvals
  }

  function ReviewFrom(expiration: nat, review: Option<nat>): Option<nat> {
    if review.Some? && review.value <= expiration then Some(expiration - review.value) else None
  }

  function Created(w: World, ops: seq<Op>, expiration: nat, review: Option<nat>): World {
    w.(proposals := w.proposals[w.next := Proposal(ops, expiration, ReviewFrom(expiration, review), {}, {}, false)], next := w.next + 1)
  }

  function Without(w: World, id: nat): World {
    w.(proposals := w.proposals - {id})
  }

  function WithProposal(w: World, id: nat, p: Proposal): World {
    w.(proposals := w.proposals[id := p])
  }

  ghost function After(x: Rules, w: World, op: Op, limit: nat, depth: nat): (r: Option<World>)
    requires WellOrdered(w) && forall u <- TouchedBy(op) :: u < limit
    ensures r.Some? ==> WellOrdered(r.value) && Spares(w, r.value, limit)
    decreases limit, 0
  {
    match op
    case Update(id, change) =>
      assert id in TouchedBy(op);
      AfterUpdate(x, w, id, change, limit, depth)
    case Delete(id, who) =>
      assert id in TouchedBy(op);
      if id in w.proposals && x.mayDelete(w, id, who) then Some(Without(w, id)) else None
    case Create(ops, expiration, review) =>
      if MayPropose(x, ops, expiration, review) && Below(ops, w.next) then Some(Created(w, ops, expiration, review)) else None
    case Other(code) =>
      match x.effect(w.rest, code)
      case None => None
      case Some(rest) => Some(w.(rest := rest))
  }

  /// Approvals are recorded; a proposal that has them all is executed.  When that fails,
  /// only the approvals and the failure remain.
  ghost function AfterUpdate(x: Rules, w: World, id: nat, change: Change, limit: nat, depth: nat): (r: Option<World>)
    requires WellOrdered(w) && id < limit
    ensures r.Some? ==> WellOrdered(r.value) && Spares(w, r.value, limit)
    decreases limit, 0, 0
  {
    if id !in w.proposals || !MayChange(x, w.proposals[id], change) then None
    else
      var p := Approved(w.proposals[id], change);
      var s := WithProposal(w, id, p);
      if p.reviewFrom.Some? || !x.authorized(s, id) then Some(s)
      else
        match AfterPush(x, s, id, depth)
        case Some(t) =>
          SparesMore(w, s, t, id, limit);
          Some(t)
        case None => Some(WithProposal(s, id, p.(failed := true)))
  }

  /// The operations of a proposal, after which it is gone: it is still there, because
  /// they touch only older ones.
  ghost function AfterPush(x: Rules, w: World, id: nat, depth: nat): (r: Option<World>)
    requires WellOrdered(w) && id in w.proposals
    ensures r.Some? ==> WellOrdered(r.value) && id !in r.value.proposals && Spares(w, r.value, id + 1)
    decreases id, 2
  {
    if depth >= x.maxNesting then None
    else
      match AfterAll(x, w, w.proposals[id].ops, id, depth + 1)
      case None => None
      case Some(t) =>
        assert id in t.proposals;
        Some(Without(t, id))
  }

  ghost function AfterAll(x: Rules, w: World, ops: seq<Op>, limit: nat, depth: nat): (r: Option<World>)
    requires WellOrdered(w) && Below(ops, limit)
    ensures r.Some? ==> WellOrdered(r.value) && Spares(w, r.value, limit)
    decreases limit, 1, |ops|
  {
    if ops == [] then Some(w)
    else
      BelowSplits(ops, limit);
      match After(x, w, ops[0], limit, depth)
      case None => None
      case Some(t) =>
        var r := AfterAll(x, t, ops[1..], limit, depth);
        if r.Some? then
          SparesTransitive(w, t, r.value, limit);
          r
        else r
  }

  // ------------------------------------------------------------------
  // Executing them

  class ProposalDatabase {
    var w: World
    /// _push_proposal_nesting_depth
    var nesting: nat
    /// The proposals being executed, outermost first.
    ghost var running: seq<nat>
    const rules: Rules

    constructor (w: World, rules: Rules)
      ensures this.w == w && this.rules == rules && nesting == 0 && running == []
    {
      this.w, this.nesting, this.running, this.rules := w, 0, [], rules;
    }

    /// Executions nest in strictly descending order of ids, down to `limit`.
    ghost predicate Descending(limit: nat)
      reads this
    {
      && nesting == |running|
      && (forall i, j :: 0 <= i < j < |running| ==> running[i] > running[j])
      && forall r <- running :: limit <= r
    }

    /// proposal_create: refused, among others, when the new proposal would touch one that is
    /// not older.
    method CreateProposal(ops: seq<Op>, expiration: nat, review: Option<nat>) returns (ok: bool)
      requires WellOrdered(w)
      modifies this`w
      ensures ok <==> MayPropose(rules, ops, expiration, review) && Below(ops, old(w).next)
      ensures w == if ok then Created(old(w), ops, expiration, review) else old(w)
    {
      var v := new Visitor();
      v.VisitAll(ops);
      ok := CheckUpdates(ops);
      if expiration <= rules.now || expiration > rules.now + rules.maxLifetime
        || (review.Some? && review.value >= expiration - rules.now)
        || (rules.committee(ops) && (review.None? || review.value < rules.minReview))
        || !rules.valid(ops)
      {
        return false;
      }
      ok := ok && (v.count == 0 || w.next > v.max);
      if ok {
        var reviewFrom := if review.Some? then Some(expiration - review.value) else None;
        w := w.(proposals := w.proposals[w.next := Proposal(ops, expiration, reviewFrom, {}, {}, false)], next := w.next + 1);
      }
    }

    /// One operation of a transaction; `limit` bounds what it touches.
    method ApplyOp(op: Op, limit: nat) returns (ok: bool)
      requires WellOrdered(w) && Descending(limit) && forall u <- TouchedBy(op) :: u < limit
      modifies this
      ensures nesting == old(nesting) && running == old(running)
      ensures After(rules, old(w), op, limit, nesting) == if ok then Some(w) else None
      decreases limit, 0
    {
      match op {
        case Update(id, change) =>
          assert id in TouchedBy(op);
          ok := UpdateProposal(id, change, limit);
        case Delete(id, who) =>
          if id !in w.proposals || !rules.mayDelete(w, id, who) {
            return false;
          }
          w := w.(proposals := w.proposals - {id});
          return true;
        case Create(ops, expiration, review) =>
          ok := CreateProposal(ops, expiration, review);
        case Other(code) =>
          var r := rules.effect(w.rest, code);
          if r.None? {
            return false;
          }
          w := w.(rest := r.value);
          return true;
      }
    }

    /// proposal_update
    method UpdateProposal(id: nat, change: Change, limit: nat) returns (ok: bool)
      requires WellOrdered(w) && Descending(limit) && id < limit
      modifies this
      ensures nesting == old(nesting) && running == old(running)
      ensures ok <==> id in old(w).proposals && MayChange(rules, old(w).proposals[id], change)
      ensures AfterUpdate(rules, old(w), id, change, limit, nesting) == if ok then Some(w) else None
      ensures ok && id in w.proposals ==>
        var p, q := old(w).proposals[id], w.proposals[id];
        && (forall x :: x in q.approvals <==> (x in p.approvals || x in change.approve) && x !in change.revoke)
        && (forall x :: x in q.keys <==> (x in p.keys || x in change.addKeys) && x !in change.removeKeys)
      ensures ok && id in w.proposals ==>
        var s := WithProposal(old(w), id, Approved(old(w).proposals[id], change));
        w == s || w == WithProposal(s, id, s.proposals[id].(failed := true))
      decreases limit, 0, 0
    {
      if id !in w.proposals {
        return false;
      }
      var p := w.proposals[id];
      if p.reviewFrom.Some? && rules.now >= p.reviewFrom.value && change.approve != {} {
        return false;
      }
      if !(change.revoke <= p.approvals) {
        return false;
      }
      w := w.(proposals := w.proposals[id := p.(
        approvals := p.approvals + change.approve - change.revoke, keys := p.keys + change.addKeys - change.removeKeys)]);
      if w.proposals[id].reviewFrom.None? && rules.authorized(w, id) {
        var done := PushProposal(id);
        if !done {
          w := w.(proposals := w.proposals[id := w.proposals[id].(failed := true)]);
        }
      }
      return true;
    }

    /// push_proposal.  The operations run in a session that is merged at the end and
    /// undone on an exception.
    method PushProposal(id: nat) returns (ok: bool)
      requires WellOrdered(w) && Descending(id + 1) && id in w.proposals
      modifies this
      ensures nesting == old(nesting) && running == old(running)
      ensures !ok ==> w == old(w)
      ensures AfterPush(rules, old(w), id, nesting) == if ok then Some(w) else None
      decreases id, 2
    {
      var session := w;
      if nesting >= rules.maxNesting {
        return false;
      }
      assert forall i :: 0 <= i < |running| ==> running[i] in running;
      nesting, running := nesting + 1, running + [id];
      ok := ApplyOps(w.proposals[id].ops, id);
      nesting, running := nesting - 1, running[..|running| - 1];
      if ok {
        w := w.(proposals := w.proposals - {id});
      } else {
        w := session;
      }
    }

    method ApplyOps(ops: seq<Op>, limit: nat) returns (ok: bool)
      requires WellOrdered(w) && Descending(limit) && Below(ops, limit)
      modifies this
      ensures nesting == old(nesting) && running == old(running)
      ensures AfterAll(rules, old(w), ops, limit, nesting) == if ok then Some(w) else None
      decreases limit, 1
    {
      for i := 0 to |ops|
        invariant WellOrdered(w) && nesting == old(nesting) && running == old(running) && Below(ops[i..], limit)
        invariant AfterAll(rules, old(w), ops, limit, nesting) == AfterAll(rules, w, ops[i..], limit, nesting)
      {
        TouchedByMember(ops[i..], 0);
        assert ops[i..][1..] == ops[i + 1..];
        ok := ApplyOp(ops[i], limit);
        if !ok {
          return;
        }
      }
      return true;
    }

    /// A transaction: all of its operations, or none.
    method ApplyTransaction(ops: seq<Op>) returns (ok: bool)
      requires WellOrdered(w) && nesting == 0 && running == []
      modifies this
      ensures WellOrdered(w) && nesting == 0 && running == []
      ensures !ok ==> w == old(w)
      ensures ok ==> exists limit :: Below(ops, limit) && AfterAll(rules, old(w), ops, limit, 0) == Some(w)
      ensures ok ==> forall p <- w.proposals :: p in old(w).proposals || old(w).next <= p < w.next
    {
      var session := w;
      var v := new Visitor();
      v.VisitAll(ops);
      ok := ApplyOps(ops, v.max + 1);
      if !ok {
        w := session;
      }
    }
  }

  lemma SparesMore(s: World, t: World, u: World, id: nat, limit: nat)
    requires id < limit && id in s.proposals && id in t.proposals && t.next == s.next
    requires t.proposals == s.proposals[id := t.proposals[id]] && Spares(t, u, id + 1)
    ensures Spares(s, u, limit)
  {
  }
}
