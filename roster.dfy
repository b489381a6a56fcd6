/** Operations on the ordered roster `players` and on the host's list of
    connections (src/main.ts:69-77): lookups by id (`find`), removal by id
    (`filter`), role assignment for a new round, and the roster broadcast. */
module Roster {
  import opened Protocol

  /** The `{id, name}` view of a roster, as `players.map(({id,name}) => ...)`. */
  function Entries(ps: seq<Player>): (es: seq<Entry>)
    ensures |es| == |ps|
    ensures forall i :: 0 <= i < |ps| ==> es[i] == Entry(ps[i].id, ps[i].name)
  {
    if ps == [] then [] else [Entry(ps[0].id, ps[0].name)] + Entries(ps[1..])
  }

  /** A roster update received by a client, every role reset to normal. */
  function AsNormal(es: seq<Entry>): (ps: seq<Player>)
    ensures |ps| == |es|
    ensures forall i :: 0 <= i < |es| ==> ps[i] == Player(es[i].id, es[i].name, Normal)
  {
    if es == [] then [] else [Player(es[0].id, es[0].name, Normal)] + AsNormal(es[1..])
  }

  /** `es.some(p => p.id === id)` */
  predicate Listed(es: seq<Entry>, id: string)
  {
    exists i :: 0 <= i < |es| && es[i].id == id
  }

  ghost predicate DistinctIds(ps: seq<Player>)
  {
    forall i, j :: 0 <= i < j < |ps| ==> ps[i].id != ps[j].id
  }

  /** `players.filter(p => p.id !== id)`: nobody with that id is left. */
  function WithoutPlayer(ps: seq<Player>, id: string): (r: seq<Player>)
    ensures |r| <= |ps|
    ensures forall i :: 0 <= i < |r| ==> r[i].id != id
  {
    if ps == [] then []
    else (if ps[0].id == id then [] else [ps[0]]) + WithoutPlayer(ps[1..], id)
  }

  /** `connections.filter(p => p.id !== id)`: the connection is no longer listed. */
  function WithoutEntry(es: seq<Entry>, id: string): (r: seq<Entry>)
    ensures |r| <= |es|
    ensures !Listed(r, id)
  {
    if es == [] then []
    else (if es[0].id == id then [] else [es[0]]) + WithoutEntry(es[1..], id)
  }

  /** `players.find(p => p.id === id)`: a player with that id (with distinct
      ids, the only one: see `FindByIdAt`). */
  function FindById(ps: seq<Player>, id: string): (r: Option<Player>)
    ensures r.None? <==> forall i :: 0 <= i < |ps| ==> ps[i].id != id
    ensures r.Some? ==> exists k :: 0 <= k < |ps| && ps[k] == r.value && r.value.id == id
  {
    if ps == [] then None
    else if ps[0].id == id then Some(ps[0])
    else FindById(ps[1..], id)
  }

  /** `players.find(p => p.role === 'undercover')`: an undercover player (with
      at most one, that one: see `FindUndercoverAt`). */
  function FindUndercover(ps: seq<Player>): (r: Option<Player>)
    ensures r.None? <==> forall i :: 0 <= i < |ps| ==> ps[i].role != Undercover
    ensures r.Some? ==> r.value.role == Undercover && r.value in ps
  {
    if ps == [] then None
    else if ps[0].role == Undercover then Some(ps[0])
    else FindUndercover(ps[1..])
  }

  /** How many players hold the undercover role. */
  function UndercoverCount(ps: seq<Player>): nat
  {
    if ps == [] then 0
    else (if ps[0].role == Undercover then 1 else 0) + UndercoverCount(ps[1..])
  }

  /** The roles a new round deals out: the player at `uc` is undercover,
      every other one normal (`all.forEach((p,i) => p.role = ...)`). */
  function AssignRoles(ps: seq<Player>, uc: nat): (r: seq<Player>)
    ensures |r| == |ps|
    ensures forall i :: 0 <= i < |ps| ==> r[i].id == ps[i].id && r[i].name == ps[i].name
    ensures forall i :: 0 <= i < |ps| ==> (r[i].role == Undercover <==> i == uc)
  {
    seq(|ps|, i requires 0 <= i < |ps| => ps[i].(role := if i == uc then Undercover else Normal))
  }

  // ---------------------------------------------------------------------
  // Role assignment

  lemma {:induction false} NoUndercoverCountsZero(ps: seq<Player>)
    requires forall i :: 0 <= i < |ps| ==> ps[i].role == Normal
    ensures UndercoverCount(ps) == 0
  {
    if ps != [] {
      NoUndercoverCountsZero(ps[1..]);
    }
  }

  lemma {:induction false} OneUndercoverCountsOne(ps: seq<Player>, k: nat)
    requires k < |ps|
    requires forall i :: 0 <= i < |ps| ==> (ps[i].role == Undercover <==> i == k)
    ensures UndercoverCount(ps) == 1
  {
    if k == 0 {
      NoUndercoverCountsZero(ps[1..]);
    } else {
      OneUndercoverCountsOne(ps[1..], k - 1);
    }
  }

  /** After role assignment exactly one player, the one at `uc`, is
      undercover; ids, names and order are those of the old roster. */
  lemma AssignRolesExactlyOne(ps: seq<Player>, uc: nat)
    requires uc < |ps|
    ensures |AssignRoles(ps, uc)| == |ps|
    ensures AssignRoles(ps, uc)[uc].role == Undercover
    ensures forall i :: 0 <= i < |ps| && i != uc ==> AssignRoles(ps, uc)[i].role == Normal
    ensures UndercoverCount(AssignRoles(ps, uc)) == 1
    ensures Entries(AssignRoles(ps, uc)) == Entries(ps)
  {
    var all := AssignRoles(ps, uc);
    OneUndercoverCountsOne(all, uc);
    assert Entries(all) == Entries(ps);
  }

  // ---------------------------------------------------------------------
  // Removal by id

  lemma {:induction false} WithoutPlayerMembers(ps: seq<Player>, id: string)
    ensures forall p :: p in WithoutPlayer(ps, id) <==> p in ps && p.id != id
  {
    if ps != [] {
      WithoutPlayerMembers(ps[1..], id);
      assert ps == [ps[0]] + ps[1..];
    }
  }

  lemma {:induction false} WithoutAbsentPlayer(ps: seq<Player>, id: string)
    requires forall i :: 0 <= i < |ps| ==> ps[i].id != id
    ensures WithoutPlayer(ps, id) == ps
  {
    if ps != [] {
      WithoutAbsentPlayer(ps[1..], id);
      assert ps == [ps[0]] + ps[1..];
    }
  }

  /** Removal is precise: in a roster with distinct ids, removing the id of
      the player at `k` cuts out exactly that entry and keeps the order of
      the rest. */
  lemma {:induction false} WithoutPlayerCutsOne(ps: seq<Player>, k: nat)
    requires DistinctIds(ps) && k < |ps|
    ensures WithoutPlayer(ps, ps[k].id) == ps[..k] + ps[k + 1..]
  {
    if k == 0 {
      WithoutAbsentPlayer(ps[1..], ps[0].id);
    } else {
      WithoutPlayerCutsOne(ps[1..], k - 1);
      assert ps[1..][k - 1] == ps[k];
      assert ps[1..][..k - 1] + ps[1..][k..] == ps[1..k] + ps[k + 1..];
      assert ps[..k] == [ps[0]] + ps[1..k];
    }
  }

  lemma {:induction false} WithoutKeepsDistinct(ps: seq<Player>, id: string)
    requires DistinctIds(ps)
    ensures DistinctIds(WithoutPlayer(ps, id))
  {
    if ps != [] {
      WithoutKeepsDistinct(ps[1..], id);
      WithoutPlayerMembers(ps[1..], id);
      var rest := WithoutPlayer(ps[1..], id);
      forall q | q in rest ensures q.id != ps[0].id {
        var j :| 0 <= j < |ps[1..]| && ps[1..][j] == q;
        assert ps[j + 1] == q;
      }
    }
  }

  lemma {:induction false} WithoutKeepsUndercoverCount(ps: seq<Player>, id: string)
    ensures UndercoverCount(WithoutPlayer(ps, id)) <= UndercoverCount(ps)
  {
    if ps != [] {
      WithoutKeepsUndercoverCount(ps[1..], id);
      UndercoverCountAppend((if ps[0].id == id then [] else [ps[0]]), WithoutPlayer(ps[1..], id));
    }
  }

  /** The host filters `players` and `connections` by the same id; the two
      stay in step. */
  lemma {:induction false} EntriesWithout(ps: seq<Player>, id: string)
    ensures Entries(WithoutPlayer(ps, id)) == WithoutEntry(Entries(ps), id)
  {
    if ps != [] {
      EntriesWithout(ps[1..], id);
      EntriesAppend((if ps[0].id == id then [] else [ps[0]]), WithoutPlayer(ps[1..], id));
    }
  }

  // ---------------------------------------------------------------------
  // Concatenation

  lemma {:induction false} EntriesAppend(a: seq<Player>, b: seq<Player>)
    ensures Entries(a + b) == Entries(a) + Entries(b)
  {
  }

  lemma {:induction false} UndercoverCountAppend(a: seq<Player>, b: seq<Player>)
    ensures UndercoverCount(a + b) == UndercoverCount(a) + UndercoverCount(b)
  {
    if a != [] {
      UndercoverCountAppend(a[1..], b);
      assert (a + b)[1..] == a[1..] + b;
    } else {
      assert a + b == b;
    }
  }

  // ---------------------------------------------------------------------
  // Lookups

  /** In a roster with distinct ids `find` by id returns the one holder. */
  lemma {:induction false} FindByIdAt(ps: seq<Player>, k: nat)
    requires DistinctIds(ps) && k < |ps|
    ensures FindById(ps, ps[k].id) == Some(ps[k])
  {
    if k > 0 {
      FindByIdAt(ps[1..], k - 1);
    }
  }

  lemma {:induction false} UndercoverCounted(ps: seq<Player>, k: nat)
    requires k < |ps| && ps[k].role == Undercover
    ensures UndercoverCount(ps) >= 1
  {
    if k > 0 {
      UndercoverCounted(ps[1..], k - 1);
    }
  }

  /** With at most one undercover, `find` by role returns the one at `k`. */
  lemma {:induction false} FindUndercoverAt(ps: seq<Player>, k: nat)
    requires UndercoverCount(ps) <= 1 && k < |ps| && ps[k].role == Undercover
    ensures FindUndercover(ps) == Some(ps[k])
  {
    if k > 0 {
      if ps[0].role == Undercover {
        UndercoverCounted(ps[1..], k - 1);
        assert false;
      }
      FindUndercoverAt(ps[1..], k - 1);
    }
  }
}
