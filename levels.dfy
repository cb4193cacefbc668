/**
 * Exact-distance level search: `actors_with_bacon_number_general` expands a
 * visited set and a frontier one level at a time. The reference definition
 * is `Layer`: the actors at exact distance k from the source, i.e. those
 * within k steps (`Within`) but not within k - 1.
 */
module Levels {
  import opened Graph

  /** The Bacon actor's id hard-coded in `actors_with_bacon_number`. */
  const Bacon: ActorId := 4724

  /** Every neighbour of a key in `s`. */
  ghost function Expand(adj: map<ActorId, set<ActorId>>, s: set<ActorId>): set<ActorId>
  {
    set p, c | p in s && p in adj && c in adj[p] :: c
  }

  /** The actors reachable from `source` in at most `k` steps. */
  ghost function Within(adj: map<ActorId, set<ActorId>>, source: ActorId, k: nat): set<ActorId>
  {
    if k == 0 then {source}
    else Within(adj, source, k - 1) + Expand(adj, Within(adj, source, k - 1))
  }

  /** The actors at exact distance `k` from `source`. */
  ghost function Layer(adj: map<ActorId, set<ActorId>>, source: ActorId, k: nat): set<ActorId>
  {
    if k == 0 then {source} else Within(adj, source, k) - Within(adj, source, k - 1)
  }

  /** Consecutive entries are adjacent: each entry is a key whose set holds
      the next one. */
  ghost predicate Walk(adj: map<ActorId, set<ActorId>>, w: seq<ActorId>)
    decreases |w|
  {
    |w| <= 1 || (Walk(adj, w[..|w| - 1]) && w[|w| - 2] in adj && w[|w| - 1] in adj[w[|w| - 2]])
  }

  // ---------------------------------------------------------------------
  // Facts about the reference definition

  lemma ExpandUnion(adj: map<ActorId, set<ActorId>>, a: set<ActorId>, b: set<ActorId>)
    ensures Expand(adj, a + b) == Expand(adj, a) + Expand(adj, b)
  {
  }

  lemma ExpandOne(adj: map<ActorId, set<ActorId>>, p: ActorId)
    requires p in adj
    ensures Expand(adj, {p}) == adj[p]
  {
    forall c | c in adj[p]
      ensures c in Expand(adj, {p})
    {
      assert p in {p};
    }
  }

  lemma ExpandMember(adj: map<ActorId, set<ActorId>>, s: set<ActorId>, p: ActorId, c: ActorId)
    requires p in s && p in adj && c in adj[p]
    ensures c in Expand(adj, s)
  {
  }

  lemma HasMember(s: set<ActorId>)
    requires s != {}
    ensures exists x :: x in s
  {
    if forall x :: x !in s {
      assert false;
    }
  }

  lemma ExpandAdd(adj: map<ActorId, set<ActorId>>, a: set<ActorId>, p: ActorId)
    requires p in adj
    ensures Expand(adj, a + {p}) == Expand(adj, a) + adj[p]
  {
    ExpandOne(adj, p);
    ExpandUnion(adj, a, {p});
  }

  lemma SubsetCard(a: set<ActorId>, b: set<ActorId>)
    requires a <= b
    ensures |a| <= |b|
  {
    assert b == a + (b - a);
  }

  lemma ExpandInKeys(adj: map<ActorId, set<ActorId>>, s: set<ActorId>)
    requires Closed(adj)
    ensures Expand(adj, s) <= adj.Keys
  {
  }

  lemma {:induction false} WithinMono(adj: map<ActorId, set<ActorId>>, source: ActorId, j: nat, k: nat)
    requires j <= k
    ensures Within(adj, source, j) <= Within(adj, source, k)
    decreases k - j
  {
    if j < k {
      WithinMono(adj, source, j, k - 1);
    }
  }

  /** `Layer(k)` lies within k steps; for k >= 1 it is disjoint from k - 1
      steps. */
  lemma LayerWithin(adj: map<ActorId, set<ActorId>>, source: ActorId, k: nat)
    ensures Layer(adj, source, k) <= Within(adj, source, k)
    ensures k >= 1 ==> Layer(adj, source, k) !! Within(adj, source, k - 1)
    ensures k >= 1 ==> Within(adj, source, k) == Within(adj, source, k - 1) + Layer(adj, source, k)
  {
  }

  /** Distinct levels share no actor. */
  lemma LayersDisjoint(adj: map<ActorId, set<ActorId>>, source: ActorId, i: nat, j: nat)
    requires i < j
    ensures Layer(adj, source, i) !! Layer(adj, source, j)
  {
    LayerWithin(adj, source, i);
    LayerWithin(adj, source, j);
    WithinMono(adj, source, i, j - 1);
  }

  /** Beyond level 0 every level actor is a key. */
  lemma LayerInKeys(adj: map<ActorId, set<ActorId>>, source: ActorId, k: nat)
    requires Closed(adj) && k >= 1
    ensures Layer(adj, source, k) <= adj.Keys
  {
    ExpandInKeys(adj, Within(adj, source, k - 1));
  }

  /** Level 1 is the source's neighbours other than itself. */
  lemma LayerOne(adj: map<ActorId, set<ActorId>>, source: ActorId)
    requires source in adj
    ensures Layer(adj, source, 1) == adj[source] - {source}
  {
    ExpandOne(adj, source);
  }

  /** The next level is what the current level reaches outside the levels
      seen so far. */
  lemma {:induction false} LayerStep(adj: map<ActorId, set<ActorId>>, source: ActorId, k: nat)
    requires k >= 1
    ensures Layer(adj, source, k + 1) ==
      Expand(adj, Layer(adj, source, k)) - Within(adj, source, k - 1) - Layer(adj, source, k)
  {
    var w0, w1, l1 := Within(adj, source, k - 1), Within(adj, source, k), Layer(adj, source, k);
    LayerWithin(adj, source, k);
    assert w1 == w0 + l1;
    ExpandUnion(adj, w0, l1);
    assert Expand(adj, w0) <= w1;
  }

  /** An empty level is followed by an empty level. */
  lemma LayerEmptyNext(adj: map<ActorId, set<ActorId>>, source: ActorId, k: nat)
    requires Layer(adj, source, k) == {}
    ensures Layer(adj, source, k + 1) == {}
  {
    assert k >= 1;
    var w0, w1 := Within(adj, source, k - 1), Within(adj, source, k);
    assert w1 == w0 + Expand(adj, w0);
    assert w1 == w0 by {
      assert w1 - w0 == {};
    }
    assert Within(adj, source, k + 1) == w1 + Expand(adj, w1);
  }

  /** Once a level is empty, every later level is empty. */
  lemma {:induction false} LayerEmptyStays(adj: map<ActorId, set<ActorId>>, source: ActorId, k: nat, j: nat)
    requires Layer(adj, source, k) == {} && k <= j
    ensures Layer(adj, source, j) == {}
    decreases j - k
  {
    if k < j {
      LayerEmptyNext(adj, source, k);
      LayerEmptyStays(adj, source, k + 1, j);
    }
  }

  /** A nonempty level k means at least k + 1 actors within k steps. */
  lemma {:induction false} WithinGrows(adj: map<ActorId, set<ActorId>>, source: ActorId, k: nat)
    requires Layer(adj, source, k) != {}
    ensures |Within(adj, source, k)| >= k + 1
  {
    if k > 0 {
      if Layer(adj, source, k - 1) == {} {
        LayerEmptyStays(adj, source, k - 1, k);
      }
      WithinGrows(adj, source, k - 1);
      var w0, l1 := Within(adj, source, k - 1), Layer(adj, source, k);
      LayerWithin(adj, source, k);
      assert |w0 + l1| == |w0| + |l1|;
    }
  }

  lemma {:induction false} WithinInKeys(adj: map<ActorId, set<ActorId>>, source: ActorId, k: nat)
    requires Closed(adj)
    ensures Within(adj, source, k) <= adj.Keys + {source}
  {
    if k > 0 {
      WithinInKeys(adj, source, k - 1);
      ExpandInKeys(adj, Within(adj, source, k - 1));
    }
  }

  /** A level can be nonempty only up to the number of actors. */
  lemma LayerBound(adj: map<ActorId, set<ActorId>>, source: ActorId, k: nat)
    requires Closed(adj) && Layer(adj, source, k) != {}
    ensures k <= |adj|
  {
    WithinGrows(adj, source, k);
    WithinInKeys(adj, source, k);
    var keys := adj.Keys + {source};
    if source in adj {
      assert keys == adj.Keys;
    } else {
      assert |keys| == |adj.Keys| + 1;
    }
    SubsetCard(Within(adj, source, k), keys);
  }

  /** Every actor of level k + 1 has a neighbour in level k. */
  lemma Predecessor(adj: map<ActorId, set<ActorId>>, source: ActorId, k: nat, x: ActorId)
    requires Symmetric(adj) && x in Layer(adj, source, k + 1)
    ensures x in adj
    ensures exists p :: p in adj[x] && p in Layer(adj, source, k)
  {
    var w0 := Within(adj, source, k);
    assert x in Expand(adj, w0);
    var p :| p in w0 && p in adj && x in adj[p];
    assert CoStar(adj, p, x);
    if k > 0 {
      LayerWithin(adj, source, k);
      assert p !in Within(adj, source, k - 1);
    }
    assert p in Layer(adj, source, k);
  }

  /** Any two consecutive entries of a walk are adjacent. */
  lemma {:induction false} WalkStep(adj: map<ActorId, set<ActorId>>, w: seq<ActorId>, i: nat)
    requires Walk(adj, w) && i + 1 < |w|
    ensures w[i] in adj && w[i + 1] in adj[w[i]]
  {
    if i + 2 < |w| {
      var init := w[..|w| - 1];
      WalkStep(adj, init, i);
      assert init[i] == w[i] && init[i + 1] == w[i + 1];
    }
  }

  /** A step to the first actor of a walk extends the walk. */
  lemma {:induction false} WalkCons(adj: map<ActorId, set<ActorId>>, x: ActorId, w: seq<ActorId>)
    requires |w| >= 1 && Walk(adj, w) && x in adj && w[0] in adj[x]
    ensures Walk(adj, [x] + w)
    decreases |w|
  {
    var w' := [x] + w;
    if |w| > 1 {
      var init := w[..|w| - 1];
      WalkCons(adj, x, init);
      assert w'[..|w'| - 1] == [x] + init;
      assert w'[|w'| - 2] == w[|w| - 2] && w'[|w'| - 1] == w[|w| - 1];
    } else {
      assert w'[..1] == [x];
    }
  }

  /** The last actor of a walk of k steps is within k steps of its first. */
  lemma {:induction false} WalkWithin(adj: map<ActorId, set<ActorId>>, w: seq<ActorId>)
    requires |w| >= 1 && Walk(adj, w)
    ensures w[|w| - 1] in Within(adj, w[0], |w| - 1)
  {
    if |w| > 1 {
      var init := w[..|w| - 1];
      WalkWithin(adj, init);
      var prev := w[|w| - 2];
      assert init[|init| - 1] == prev && init[0] == w[0];
      assert prev in Within(adj, w[0], |w| - 2);
      ExpandMember(adj, Within(adj, w[0], |w| - 2), prev, w[|w| - 1]);
    }
  }

  /** The level-by-level view of distance: an actor on level k is reached by
      no walk of fewer than k steps. */
  lemma LayerIsDistance(adj: map<ActorId, set<ActorId>>, source: ActorId, k: nat, w: seq<ActorId>)
    requires |w| >= 1 && Walk(adj, w) && w[0] == source
    requires w[|w| - 1] in Layer(adj, source, k)
    ensures |w| - 1 >= k
  {
    WalkWithin(adj, w);
    if |w| - 1 < k {
      WithinMono(adj, source, |w| - 1, k - 1);
      LayerWithin(adj, source, k);
    }
  }

  /** Beyond the number of actors every level is empty: the source's
      `n > len(actors)` shortcut agrees with the search. */
  lemma LayerBeyond(adj: map<ActorId, set<ActorId>>, source: ActorId, k: nat)
    requires Closed(adj) && k > |adj|
    ensures Layer(adj, source, k) == {}
  {
    if Layer(adj, source, k) != {} {
      LayerBound(adj, source, k);
    }
  }

  // ---------------------------------------------------------------------
  // The search

  /** The inner `for child in ...` loop of the level search: adds every child
      that is neither checked nor a parent. */
  method AddChildren(children: set<ActorId>, checkedActors: set<ActorId>, parentActors: set<ActorId>,
                     newParents: set<ActorId>)
    returns (r: set<ActorId>)
    ensures r == newParents + (children - checkedActors - parentActors)
  {
    r := newParents;
    var todo := children;
    while todo != {}
      invariant todo <= children
      invariant forall x :: x in r <==> x in newParents || (x in children && x !in todo && x !in checkedActors && x !in parentActors)
      decreases |todo|
    {
      HasMember(todo);
      var child :| child in todo;
      if child !in checkedActors && child !in parentActors {
        r := r + {child};
      }
      todo := todo - {child};
    }
    assert forall x :: x in r <==> x in newParents + (children - checkedActors - parentActors);
  }

  /** One parent of the level search handled: the new parents collected so
      far gain exactly the unchecked, non-parent neighbours of `parent`. */
  lemma NewParentsStep(adj: map<ActorId, set<ActorId>>, checkedActors: set<ActorId>, parentActors: set<ActorId>,
                       done: set<ActorId>, parent: ActorId, before: set<ActorId>, after: set<ActorId>)
    requires parent in adj
    requires before == Expand(adj, done - checkedActors) - checkedActors - parentActors
    requires parent !in checkedActors ==> after == before + (adj[parent] - checkedActors - parentActors)
    requires parent in checkedActors ==> after == before
    ensures after == Expand(adj, done + {parent} - checkedActors) - checkedActors - parentActors
  {
    if parent in checkedActors {
      assert done + {parent} - checkedActors == done - checkedActors;
    } else {
      assert done + {parent} - checkedActors == (done - checkedActors) + {parent};
      ExpandAdd(adj, done - checkedActors, parent);
    }
  }

  /** The `for parent in parent_actors` loop of the level search: every
      neighbour of an unchecked parent that is neither checked nor a parent. */
  method NewParents(adj: map<ActorId, set<ActorId>>, checkedActors: set<ActorId>, parentActors: set<ActorId>)
    returns (newParents: set<ActorId>)
    requires parentActors <= adj.Keys
    ensures newParents == Expand(adj, parentActors - checkedActors) - checkedActors - parentActors
  {
    newParents := {};
    var todo := parentActors;
    assert Expand(adj, parentActors - todo - checkedActors) == {};
    while todo != {}
      invariant todo <= parentActors
      invariant newParents == Expand(adj, parentActors - todo - checkedActors) - checkedActors - parentActors
      decreases |todo|
    {
      HasMember(todo);
      var parent :| parent in todo;
      ghost var done, before := parentActors - todo, newParents;
      if parent !in checkedActors {
        newParents := AddChildren(adj[parent], checkedActors, parentActors, newParents);
      }
      NewParentsStep(adj, checkedActors, parentActors, done, parent, before, newParents);
      todo := todo - {parent};
      assert parentActors - todo == done + {parent};
    }
  }

  /** `actors_with_bacon_number_general`: the actors at exact distance `n`
      from `actorId`. A negative `n` skips the loop and, as in the source,
      yields level 1. */
  method ActorsWithBaconNumberGeneral(data: Data, actorId: ActorId, n: int) returns (r: set<ActorId>)
    requires Closed(data.actors)
    requires n != 0 && n <= |data.actors| ==> actorId in data.actors
    ensures r == Layer(data.actors, actorId, if n < 0 then 1 else n)
  {
    var adj := data.actors;
    if n > |adj| {
      LayerBeyond(adj, actorId, n);
      return {};
    }
    if n == 0 {
      return {actorId};
    }
    var checkedActors := {actorId};
    var parentActors := set p | p in adj[actorId] && p != actorId;
    LayerOne(adj, actorId);
    var m := n;
    ghost var level: nat := 1;
    while m > 1
      invariant 1 <= level
      invariant n >= 1 ==> m >= 1 && level + m == n + 1
      invariant n < 0 ==> m == n && level == 1
      invariant checkedActors == Within(adj, actorId, level - 1)
      invariant parentActors == Layer(adj, actorId, level)
      decreases m
    {
      LayerInKeys(adj, actorId, level);
      LayerWithin(adj, actorId, level);
      var newParents := NewParents(adj, checkedActors, parentActors);
      assert parentActors - checkedActors == parentActors;
      LayerStep(adj, actorId, level);
      checkedActors := checkedActors + parentActors;
      parentActors := newParents;
      m := m - 1;
      level := level + 1;
    }
    r := parentActors;
  }

  /** `actors_with_bacon_number`: the general search from the fixed Bacon id. */
  method ActorsWithBaconNumber(data: Data, n: int) returns (r: set<ActorId>)
    requires Closed(data.actors)
    requires n != 0 && n <= |data.actors| ==> Bacon in data.actors
    ensures r == Layer(data.actors, Bacon, if n < 0 then 1 else n)
  {
    r := ActorsWithBaconNumberGeneral(data, Bacon, n);
  }
}
