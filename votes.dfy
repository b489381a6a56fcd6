/** The vote tally `voteCounts` of src/main.ts:79. It is a JavaScript object
    from target id to count; its entries keep insertion order, and that order
    is the order of the tied candidates the tie-break draws from, so the tally
    is an association list here. */
module Votes {
  import opened Chance

  datatype Count = Count(target: string, votes: nat)

  type Tally = seq<Count>

  /** No target appears twice (true of any JavaScript object's keys). */
  ghost predicate WellFormed(t: Tally)
  {
    forall i, j :: 0 <= i < j < |t| ==> t[i].target != t[j].target
  }

  predicate HasTarget(t: Tally, id: string)
  {
    exists i :: 0 <= i < |t| && t[i].target == id
  }

  /** `voteCounts[id] || 0`: an absent target counts as 0, a present one
      has the count stored with it. */
  function VotesFor(t: Tally, id: string): (n: nat)
    ensures !HasTarget(t, id) ==> n == 0
    ensures HasTarget(t, id) ==> exists i :: 0 <= i < |t| && t[i].target == id && t[i].votes == n
  {
    if t == [] then 0
    else if t[0].target == id then t[0].votes
    else
      HasTargetTail(t, id);
      assert forall i :: 1 <= i < |t| ==> t[i] == t[1..][i - 1];
      VotesFor(t[1..], id)
  }

  /** The keys in insertion order (`Object.keys`). */
  function Targets(t: Tally): (ks: seq<string>)
    ensures |ks| == |t|
    ensures forall i :: 0 <= i < |t| ==> ks[i] == t[i].target
  {
    if t == [] then [] else [t[0].target] + Targets(t[1..])
  }

  /** `voteCounts[id] = (voteCounts[id] || 0) + 1`: exactly the count of
      `id` goes up by one. */
  function Increment(t: Tally, id: string): (r: Tally)
    ensures forall x :: VotesFor(r, x) == VotesFor(t, x) + (if x == id then 1 else 0)
    ensures |r| > 0
  {
    if t == [] then [Count(id, 1)]
    else if t[0].target == id then [Count(id, t[0].votes + 1)] + t[1..]
    else [t[0]] + Increment(t[1..], id)
  }

  lemma {:induction false} HasTargetTail(t: Tally, id: string)
    requires t != [] && t[0].target != id
    ensures HasTarget(t, id) <==> HasTarget(t[1..], id)
  {
    if HasTarget(t, id) {
      var i :| 0 <= i < |t| && t[i].target == id;
      assert t[1..][i - 1].target == id;
    }
    if HasTarget(t[1..], id) {
      var i :| 0 <= i < |t[1..]| && t[1..][i].target == id;
      assert t[i + 1].target == id;
    }
  }

  /** Incrementing keeps the key order: an existing entry keeps its place,
      a new target is added at the end. */
  lemma {:induction false} IncrementKeepsOrder(t: Tally, id: string)
    ensures Targets(Increment(t, id)) == if HasTarget(t, id) then Targets(t) else Targets(t) + [id]
  {
    if t == [] {
    } else if t[0].target == id {
      assert HasTarget(t, id);
      var r := [Count(id, t[0].votes + 1)] + t[1..];
      assert Increment(t, id) == r && r[1..] == t[1..];
      assert Targets(r) == [id] + Targets(t[1..]);
    } else {
      var rest := Increment(t[1..], id);
      IncrementKeepsOrder(t[1..], id);
      HasTargetTail(t, id);
      var r := [t[0]] + rest;
      assert Increment(t, id) == r && r[1..] == rest;
      assert Targets(r) == [t[0].target] + Targets(rest);
    }
  }

  /** Incrementing never makes a target appear twice. */
  lemma IncrementWellFormed(t: Tally, id: string)
    requires WellFormed(t)
    ensures WellFormed(Increment(t, id))
  {
    var r := Increment(t, id);
    IncrementKeepsOrder(t, id);
    var ks, rs := Targets(t), Targets(r);
    forall i, j | 0 <= i < j < |r| ensures r[i].target != r[j].target {
      assert rs[i] == r[i].target && rs[j] == r[j].target;
      if j < |t| {
        assert rs[i] == ks[i] && rs[j] == ks[j];
      } else {
        assert !HasTarget(t, id) && rs[j] == id && rs[i] == t[i].target;
      }
    }
  }

  /** `Math.max(...Object.values(voteCounts))` on a non-empty tally. */
  function MaxVotes(t: Tally): (m: nat)
    requires |t| > 0
    ensures forall i :: 0 <= i < |t| ==> t[i].votes <= m
    ensures exists i :: 0 <= i < |t| && t[i].votes == m
  {
    if |t| == 1 then t[0].votes
    else
      var rest := MaxVotes(t[1..]);
      assert forall i :: 1 <= i < |t| ==> t[i] == t[1..][i - 1];
      if t[0].votes >= rest then t[0].votes else rest
  }

  /** The targets whose count is `v`, in insertion order
      (`Object.entries(..).filter(([, c]) => c === v).map(([id]) => id)`). */
  function WithVotes(t: Tally, v: nat): (ids: seq<string>)
    ensures forall x :: x in ids <==> exists i :: 0 <= i < |t| && t[i].target == x && t[i].votes == v
  {
    if t == [] then []
    else
      var rest := WithVotes(t[1..], v);
      assert forall i :: 1 <= i < |t| ==> t[i] == t[1..][i - 1];
      (if t[0].votes == v then [t[0].target] else []) + rest
  }

  /** Filtering keeps tally order: the filter of a concatenation is the
      concatenation of the filters, so of two targets holding `v`, the one
      whose first vote came earlier comes first. */
  lemma {:induction false} WithVotesAppend(t: Tally, u: Tally, v: nat)
    ensures WithVotes(t + u, v) == WithVotes(t, v) + WithVotes(u, v)
  {
    if t == [] {
      assert t + u == u;
    } else {
      var head := if t[0].votes == v then [t[0].target] else [];
      assert (t + u)[0] == t[0] && (t + u)[1..] == t[1..] + u;
      assert WithVotes(t + u, v) == head + WithVotes(t[1..] + u, v);
      assert WithVotes(t, v) == head + WithVotes(t[1..], v);
      WithVotesAppend(t[1..], u, v);
    }
  }

  /** The tied candidates for elimination: `top`. Never empty. */
  function Leaders(t: Tally): (top: seq<string>)
    requires |t| > 0
    ensures |top| > 0
    ensures forall x :: x in top <==> exists i :: 0 <= i < |t| && t[i].target == x && t[i].votes == MaxVotes(t)
  {
    var m := MaxVotes(t);
    var k :| 0 <= k < |t| && t[k].votes == m;
    assert t[k].target in WithVotes(t, m);
    WithVotes(t, m)
  }

  /** Tied leaders appear in `top` in the order their first votes arrived:
      a leader `x` entered before a leader `y` stands before it. */
  lemma LeadersInVoteOrder(a: Tally, x: string, b: Tally, y: string, c: Tally, m: nat)
    requires MaxVotes(a + [Count(x, m)] + b + [Count(y, m)] + c) == m
    ensures Leaders(a + [Count(x, m)] + b + [Count(y, m)] + c)
            == WithVotes(a, m) + [x] + WithVotes(b, m) + [y] + WithVotes(c, m)
  {
    var t1 := a + [Count(x, m)];
    var t2 := t1 + b;
    var t3 := t2 + [Count(y, m)];
    WithVotesAppend(a, [Count(x, m)], m);
    WithVotesAppend(t1, b, m);
    WithVotesAppend(t2, [Count(y, m)], m);
    WithVotesAppend(t3, c, m);
    assert WithVotes([Count(x, m)], m) == [x];
    assert WithVotes([Count(y, m)], m) == [y];
  }

  /** The eliminated target: `top[Math.floor(Math.random() * top.length)]`.
      It is always a target holding the maximal count. */
  function TieBreak(t: Tally, rnd: real): (elim: string)
    requires |t| > 0 && 0.0 <= rnd < 1.0
    ensures elim in Leaders(t)
    ensures exists i :: 0 <= i < |t| && t[i].target == elim && t[i].votes == MaxVotes(t)
  {
    var top := Leaders(t);
    top[Pick(rnd, |top|)]
  }

  // ---------------------------------------------------------------------

  lemma {:induction false} VotesForAt(t: Tally, k: nat)
    requires WellFormed(t) && k < |t|
    ensures VotesFor(t, t[k].target) == t[k].votes
  {
    if k > 0 {
      VotesForAt(t[1..], k - 1);
    }
  }

  /** An elimination never picks a target with a lower count than another:
      the chosen target's count bounds every count in the tally. */
  lemma TieBreakIsMaximal(t: Tally, rnd: real)
    requires WellFormed(t) && |t| > 0 && 0.0 <= rnd < 1.0
    ensures HasTarget(t, TieBreak(t, rnd))
    ensures forall x :: HasTarget(t, x) ==> VotesFor(t, x) <= VotesFor(t, TieBreak(t, rnd))
  {
    var elim := TieBreak(t, rnd);
    var k :| 0 <= k < |t| && t[k].target == elim && t[k].votes == MaxVotes(t);
    VotesForAt(t, k);
    forall x | HasTarget(t, x) ensures VotesFor(t, x) <= VotesFor(t, elim) {
      var j :| 0 <= j < |t| && t[j].target == x;
      VotesForAt(t, j);
    }
  }

  /** Fairness of the tie-break: every tied candidate is chosen by some draw. */
  lemma TieBreakReachesEveryLeader(t: Tally, x: string)
    requires |t| > 0 && x in Leaders(t)
    ensures exists rnd :: 0.0 <= rnd < 1.0 && TieBreak(t, rnd) == x
  {
    var top := Leaders(t);
    var i :| 0 <= i < |top| && top[i] == x;
    PickReaches(i, |top|);
    var rnd := i as real / |top| as real;
    assert TieBreak(t, rnd) == x;
  }

  /** A tally A:2, B:2, C:1 always eliminates A or B, never C. */
  lemma TieAmongTwoLeaders(rnd: real)
    requires 0.0 <= rnd < 1.0
    ensures var t := [Count("A", 2), Count("B", 2), Count("C", 1)];
            TieBreak(t, rnd) in {"A", "B"}
  {
    var t := [Count("A", 2), Count("B", 2), Count("C", 1)];
    assert MaxVotes(t) == 2;
    assert Leaders(t) == ["A", "B"];
  }
}
