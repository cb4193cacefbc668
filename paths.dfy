/**
 * Path reconstruction on top of the level search: `actor_to_actor_path`
 * computes levels until the target shows up and then backtracks through
 * them; `actor_path` does the same for the first level holding an actor that
 * passes a goal test; `movie_path` annotates a path with connecting films;
 * `actors_connecting_films` bridges two films through their participants.
 * Where the source takes "some" element of a set (`next(iter(...))`, or the
 * first element a `for` loop over a set meets), the model picks with `:|`.
 */
module Paths {
  import opened Graph
  import opened Levels

  datatype Option<T> = None | Some(value: T)

  /** A path that visits level i of the search from `source` at step i;
      it starts at `source` and its consecutive actors are adjacent. */
  ghost predicate LevelPath(adj: map<ActorId, set<ActorId>>, source: ActorId, p: seq<ActorId>)
  {
    && |p| >= 1
    && p[0] == source
    && (forall i :: 0 <= i < |p| ==> p[i] in Layer(adj, source, i))
    && Walk(adj, p)
  }

  /** `p` is a level path from `source` to `target`, and `target` is on no
      earlier level: a shortest path between the two. */
  ghost predicate ShortestPath(adj: map<ActorId, set<ActorId>>, source: ActorId, target: ActorId, p: seq<ActorId>)
  {
    && LevelPath(adj, source, p)
    && p[|p| - 1] == target
    && NotBelow(adj, source, target, |p| - 1)
  }

  /** `target` is at some distance from `source`. */
  ghost predicate Reaches(adj: map<ActorId, set<ActorId>>, source: ActorId, target: ActorId)
  {
    exists d: nat :: target in Layer(adj, source, d)
  }

  /** `target` is on none of the levels below k. */
  ghost predicate NotBelow(adj: map<ActorId, set<ActorId>>, source: ActorId, target: ActorId, k: nat)
  {
    forall j: nat :: j < k ==> target !in Layer(adj, source, j)
  }

  lemma NotBelowStep(adj: map<ActorId, set<ActorId>>, source: ActorId, target: ActorId, k: nat)
    requires NotBelow(adj, source, target, k) && target !in Layer(adj, source, k)
    ensures NotBelow(adj, source, target, k + 1)
  {
  }

  /** When the search runs into an empty level, `target` is not reachable. */
  lemma NotReached(adj: map<ActorId, set<ActorId>>, source: ActorId, target: ActorId, k: nat)
    requires NotBelow(adj, source, target, k) && Layer(adj, source, k) == {}
    ensures !Reaches(adj, source, target)
  {
    forall d: nat
      ensures target !in Layer(adj, source, d)
    {
      if d >= k {
        LayerEmptyStays(adj, source, k, d);
      }
    }
  }

  /** `x` passes the goal test. This is only `goal(x)`; it is a named
      predicate so that the quantifiers below are instantiated only where a
      proof mentions `Passes`. */
  ghost predicate Passes(goal: ActorId -> bool, x: ActorId)
  {
    goal(x)
  }

  /** Some actor at some distance from `source` passes `goal`. */
  ghost predicate ReachesGoal(adj: map<ActorId, set<ActorId>>, source: ActorId, goal: ActorId -> bool)
  {
    exists d: nat, x :: x in Layer(adj, source, d) && Passes(goal, x)
  }

  /** No actor on the levels below k passes `goal`. */
  ghost predicate NoGoalBelow(adj: map<ActorId, set<ActorId>>, source: ActorId, goal: ActorId -> bool, k: nat)
  {
    forall j: nat, x :: j < k && x in Layer(adj, source, j) ==> !Passes(goal, x)
  }

  /** A level with no goal actor extends the goal-free prefix by one. */
  lemma NoGoalStep(adj: map<ActorId, set<ActorId>>, source: ActorId, goal: ActorId -> bool, k: nat)
    requires NoGoalBelow(adj, source, goal, k)
    requires forall x :: x in Layer(adj, source, k) ==> !Passes(goal, x)
    ensures NoGoalBelow(adj, source, goal, k + 1)
  {
  }

  /** When the search runs into an empty level, no actor at all passes `goal`. */
  lemma NoGoalAtAll(adj: map<ActorId, set<ActorId>>, source: ActorId, goal: ActorId -> bool, k: nat)
    requires NoGoalBelow(adj, source, goal, k) && Layer(adj, source, k) == {}
    ensures !ReachesGoal(adj, source, goal) && GoalSearch(adj, source, goal, None)
  {
    forall d: nat, x | x in Layer(adj, source, d)
      ensures !Passes(goal, x)
    {
      if d >= k {
        LayerEmptyStays(adj, source, k, d);
      }
    }
  }

  /** A level path is a shortest walk: no walk between its ends is shorter. */
  lemma LevelPathIsShortest(adj: map<ActorId, set<ActorId>>, source: ActorId, p: seq<ActorId>, w: seq<ActorId>)
    requires LevelPath(adj, source, p)
    requires |w| >= 1 && Walk(adj, w) && w[0] == source && w[|w| - 1] == p[|p| - 1]
    ensures |p| <= |w|
  {
    LayerIsDistance(adj, source, |p| - 1, w);
  }

  /** Consecutive actors of a level path are different actors. */
  lemma LevelPathSteps(adj: map<ActorId, set<ActorId>>, source: ActorId, p: seq<ActorId>, i: nat)
    requires LevelPath(adj, source, p) && i < |p| - 1
    ensures p[i] != p[i + 1]
  {
    LayersDisjoint(adj, source, i, i + 1);
  }

  /** `actor_to_actor_path`: computes levels 0, 1, ... from `actorId1` until
      one contains `actorId2` (or one is empty: no path), then walks back from
      `actorId2`, each time to some neighbour on the level below. */
  method ActorToActorPath(data: Data, actorId1: ActorId, actorId2: ActorId) returns (r: Option<seq<ActorId>>)
    requires Symmetric(data.actors) && Closed(data.actors)
    requires actorId1 in data.actors || actorId1 == actorId2 || data.actors == map[]
    ensures r.None? <==> !Reaches(data.actors, actorId1, actorId2)
    ensures r.Some? ==> ShortestPath(data.actors, actorId1, actorId2, r.value)
    ensures actorId1 == actorId2 ==> r == Some([actorId1])
  {
    var adj := data.actors;
    var count := 0;
    var searching := true;
    var bacons: map<int, set<ActorId>> := map[];
    while searching
      invariant 0 <= count
      invariant searching ==> count <= |adj| + 1
      invariant actorId1 == actorId2 ==> (searching <==> count == 0)
      invariant LevelsSoFar(adj, actorId1, bacons, count)
      invariant searching ==> NotBelow(adj, actorId1, actorId2, count)
      invariant !searching ==> 1 <= count && NotBelow(adj, actorId1, actorId2, count - 1) && actorId2 in bacons[count - 1]
      decreases |adj| + 2 - count
    {
      var actors := ActorsWithBaconNumberGeneral(data, actorId1, count);
      LevelsSoFarStep(adj, actorId1, bacons, count, actors);
      bacons := bacons[count := actors];
      if actorId2 in actors {
        searching := false;
      } else {
        NotBelowStep(adj, actorId1, actorId2, count);
      }
      if |actors| == 0 {
        NotReached(adj, actorId1, actorId2, count);
        return None;
      }
      LayerBound(adj, actorId1, count);
      count := count + 1;
    }
    LevelsBacklinked(adj, actorId1, bacons, count);
    var path := WalkBack(adj, actorId2, bacons, count - 1);
    LevelsToLevelPath(adj, actorId1, bacons, path);
    r := Some(path);
    if actorId1 == actorId2 {
      assert path == [actorId1];
    }
  }

  /** The backtracking half of `actor_to_actor_path` (which by then has
      replaced the data by its `actors` map): from `actorId2` on recorded
      level `d`, steps to some co-star on the recorded level below, `d` times. */
  method WalkBack(adj: map<ActorId, set<ActorId>>, actorId2: ActorId, bacons: map<int, set<ActorId>>, d: nat)
    returns (path: seq<ActorId>)
    requires Symmetric(adj) && Backlinked(adj, bacons, d)
    requires actorId2 in bacons[d]
    ensures |path| == d + 1 && path[|path| - 1] == actorId2
    ensures Walk(adj, path) && OnLevels(bacons, path, 0)
  {
    var curActor := actorId2;
    path := [actorId2];
    var count := d - 1;
    while count >= 0
      invariant -1 <= count <= d - 1
      invariant |path| == d - count
      invariant path[0] == curActor && path[|path| - 1] == actorId2
      invariant OnLevels(bacons, path, count + 1)
      invariant Walk(adj, path)
      decreases count
    {
      assert At(bacons, count + 1, path[0]) && LinkedDown(adj, bacons, count + 1);
      var workedWith := adj[curActor];
      var baconActors := bacons[count];
      var intersect := workedWith * baconActors;
      HasMember(intersect);
      var next :| next in intersect;
      assert CoStar(adj, curActor, next);
      WalkCons(adj, next, path);
      OnLevelsCons(bacons, next, path, count);
      path := [next] + path;
      curActor := next;
      count := count - 1;
    }
  }

  /** Levels 0 to d are recorded, and every actor on a recorded level above 0
      has a co-star on the recorded level below. */
  ghost predicate Backlinked(adj: map<ActorId, set<ActorId>>, bacons: map<int, set<ActorId>>, d: nat)
  {
    && (forall k :: 0 <= k <= d ==> k in bacons)
    && (forall k :: 1 <= k <= d ==> LinkedDown(adj, bacons, k))
  }

  /** Every actor on recorded level k has a co-star on recorded level k - 1. */
  ghost predicate LinkedDown(adj: map<ActorId, set<ActorId>>, bacons: map<int, set<ActorId>>, k: int)
    requires k in bacons && k - 1 in bacons
  {
    forall x :: x in bacons[k] ==> x in adj && adj[x] * bacons[k - 1] != {}
  }

  /** Actor `a` is on recorded level k. */
  ghost predicate At(bacons: map<int, set<ActorId>>, k: int, a: ActorId)
  {
    k in bacons && a in bacons[k]
  }

  /** The i-th actor of `path` is on recorded level `offset + i`. */
  ghost predicate OnLevels(bacons: map<int, set<ActorId>>, path: seq<ActorId>, offset: int)
  {
    forall i :: 0 <= i < |path| ==> At(bacons, offset + i, path[i])
  }

  lemma OnLevelsCons(bacons: map<int, set<ActorId>>, x: ActorId, path: seq<ActorId>, offset: int)
    requires OnLevels(bacons, path, offset + 1) && At(bacons, offset, x)
    ensures OnLevels(bacons, [x] + path, offset)
  {
    forall i | 0 <= i < |[x] + path|
      ensures At(bacons, offset + i, ([x] + path)[i])
    {
      if i > 0 {
        assert ([x] + path)[i] == path[i - 1];
        assert offset + 1 + (i - 1) == offset + i;
      }
    }
  }

  /** `bacons` holds the first n levels of the search from `source`. */
  ghost predicate LevelsSoFar(adj: map<ActorId, set<ActorId>>, source: ActorId, bacons: map<int, set<ActorId>>, n: nat)
  {
    forall j :: 0 <= j < n ==> j in bacons && bacons[j] == Layer(adj, source, j)
  }

  /** Recording level n extends the recorded prefix by one level. */
  lemma LevelsSoFarStep(adj: map<ActorId, set<ActorId>>, source: ActorId, bacons: map<int, set<ActorId>>,
                        n: nat, actors: set<ActorId>)
    requires LevelsSoFar(adj, source, bacons, n) && actors == Layer(adj, source, n)
    ensures LevelsSoFar(adj, source, bacons[n := actors], n + 1)
  {
  }

  /** The recorded levels of a symmetric adjacency are back-linked. */
  lemma LevelsBacklinked(adj: map<ActorId, set<ActorId>>, source: ActorId, bacons: map<int, set<ActorId>>, n: nat)
    requires Symmetric(adj) && LevelsSoFar(adj, source, bacons, n) && n >= 1
    ensures Backlinked(adj, bacons, n - 1)
  {
    forall k | 1 <= k <= n - 1
      ensures LinkedDown(adj, bacons, k)
    {
      forall x | x in bacons[k]
        ensures x in adj && adj[x] * bacons[k - 1] != {}
      {
        Predecessor(adj, source, k - 1, x);
        var p :| p in adj[x] && p in Layer(adj, source, k - 1);
        assert p in adj[x] * bacons[k - 1];
      }
    }
  }

  /** A walk through the recorded levels, one per step, is a level path. */
  lemma LevelsToLevelPath(adj: map<ActorId, set<ActorId>>, source: ActorId, bacons: map<int, set<ActorId>>, path: seq<ActorId>)
    requires LevelsSoFar(adj, source, bacons, |path|)
    requires |path| >= 1 && Walk(adj, path)
    requires OnLevels(bacons, path, 0)
    ensures LevelPath(adj, source, path)
  {
  }

  /** `bacon_path`: the path search from the fixed Bacon id. */
  method BaconPath(data: Data, actorId: ActorId) returns (r: Option<seq<ActorId>>)
    requires Symmetric(data.actors) && Closed(data.actors)
    requires Bacon in data.actors || Bacon == actorId || data.actors == map[]
    ensures r.None? <==> !Reaches(data.actors, Bacon, actorId)
    ensures r.Some? ==> ShortestPath(data.actors, Bacon, actorId, r.value)
  {
    r := ActorToActorPath(data, Bacon, actorId);
  }

  /** The inner loop of `movie_path`: scans the links of one actor and takes
      the film of the first link it meets whose co-actor is `actor2`. */
  method FilmWith(links: set<Link>, actor2: ActorId) returns (film: FilmId)
    requires exists l: Link :: l in links && l.1 == actor2
    ensures (film, actor2) in links
  {
    var tups := links;
    while tups != {}
      invariant tups <= links
      invariant exists l: Link :: l in tups && l.1 == actor2
      decreases |tups|
    {
      var tup: Link :| tup in tups;
      if tup.1 == actor2 {
        return tup.0;
      }
      tups := tups - {tup};
    }
    assert false;
  }

  /** `movie_path`: for each step of the path from `actorId1` to `actorId2`,
      the film of some link of the first actor that names the second. */
  method MoviePath(data: Data, actorId1: ActorId, actorId2: ActorId) returns (r: seq<FilmId>)
    requires Valid(data)
    requires actorId1 in data.actors || actorId1 == actorId2 || data.actors == map[]
    requires Reaches(data.actors, actorId1, actorId2)
    ensures exists p ::
      && ShortestPath(data.actors, actorId1, actorId2, p)
      && |r| == |p| - 1
      && forall i :: 0 <= i < |r| ==>
           p[i] in data.moviesAndWhoWith && (r[i], p[i + 1]) in data.moviesAndWhoWith[p[i]]
  {
    var shortMoviePath: seq<FilmId> := [];
    var found := ActorToActorPath(data, actorId1, actorId2);
    var path := found.value;
    var movieData := data.moviesAndWhoWith;
    assert LinksValid(data.actors, movieData);
    for index := 0 to |path| - 1
      invariant |shortMoviePath| == index
      invariant forall i :: 0 <= i < index ==>
        path[i] in movieData && (shortMoviePath[i], path[i + 1]) in movieData[path[i]]
    {
      var actor1 := path[index];
      var actor2 := path[index + 1];
      LevelPathSteps(data.actors, actorId1, path, index);
      WalkStep(data.actors, path, index);
      assert CoStar(data.actors, actor1, actor2);
      var film := FilmWith(movieData[actor1], actor2);
      shortMoviePath := shortMoviePath + [film];
    }
    r := shortMoviePath;
  }

  /** `p` is a level path from `source` to an actor passing `goal`, and no
      actor on an earlier level passes it. */
  ghost predicate NearestGoalPath(adj: map<ActorId, set<ActorId>>, source: ActorId, goal: ActorId -> bool, p: seq<ActorId>)
  {
    && LevelPath(adj, source, p)
    && Passes(goal, p[|p| - 1])
    && NoGoalBelow(adj, source, goal, |p| - 1)
  }

  /** What `actor_path` returns: no path exactly when no actor reachable from
      `source` passes `goal`, and otherwise a nearest goal path. */
  ghost predicate GoalSearch(adj: map<ActorId, set<ActorId>>, source: ActorId, goal: ActorId -> bool, r: Option<seq<ActorId>>)
  {
    && (r.None? <==> !ReachesGoal(adj, source, goal))
    && (r.Some? ==> NearestGoalPath(adj, source, goal, r.value))
  }

  /** The inner loop of `actor_path`: scans one level and meets, in some
      order, either an actor that passes `goal` or the end of the level. */
  method FirstGoal(actors: set<ActorId>, goal: ActorId -> bool) returns (found: Option<ActorId>)
    ensures found.None? <==> forall x :: x in actors ==> !Passes(goal, x)
    ensures found.Some? ==> found.value in actors && Passes(goal, found.value)
  {
    var todo := actors;
    while todo != {}
      invariant todo <= actors
      invariant forall x :: x in actors - todo ==> !Passes(goal, x)
      decreases |todo|
    {
      HasMember(todo);
      var actor :| actor in todo;
      if goal(actor) {
        return Some(actor);
      }
      todo := todo - {actor};
    }
    found := None;
  }

  /** One round of the outer loop of `actor_path`: the actors on level
      `count` (`empty` when there are none) and, if one of them passes
      `goal`, the path to it. */
  method SearchLevel(data: Data, actorId1: ActorId, goal: ActorId -> bool, count: nat)
    returns (empty: bool, r: Option<seq<ActorId>>)
    requires Symmetric(data.actors) && Closed(data.actors)
    requires count == 0 || actorId1 in data.actors || data.actors == map[]
    requires NoGoalBelow(data.actors, actorId1, goal, count)
    ensures empty <==> Layer(data.actors, actorId1, count) == {}
    ensures r.Some? ==> GoalSearch(data.actors, actorId1, goal, r)
    ensures r.None? ==> NoGoalBelow(data.actors, actorId1, goal, count + 1) && !Passes(goal, actorId1)
    ensures r.None? && empty ==> GoalSearch(data.actors, actorId1, goal, None)
    ensures !empty ==> count <= |data.actors|
  {
    var adj := data.actors;
    var actors := ActorsWithBaconNumberGeneral(data, actorId1, count);
    empty := |actors| == 0;
    if !empty {
      LayerBound(adj, actorId1, count);
    }
    var actor := FirstGoal(actors, goal);
    if actor.Some? {
      var path := ActorToActorPath(data, actorId1, actor.value);
      GoalPath(adj, actorId1, goal, path, actor.value, count);
      return empty, path;
    }
    NoGoalStep(adj, actorId1, goal, count);
    assert actorId1 in Layer(adj, actorId1, 0);
    if empty {
      NoGoalAtAll(adj, actorId1, goal, count);
    }
    r := None;
  }

  /** `actor_path`: the levels from `actorId1` are scanned in increasing
      order; in the first level holding some actor that passes `goal`, one such
      actor is picked and the path to it is returned. */
  method ActorPath(data: Data, actorId1: ActorId, goal: ActorId -> bool) returns (r: Option<seq<ActorId>>)
    requires Symmetric(data.actors) && Closed(data.actors)
    requires actorId1 in data.actors || data.actors == map[] || Passes(goal, actorId1)
    ensures GoalSearch(data.actors, actorId1, goal, r)
  {
    var adj := data.actors;
    var count: nat := 0;
    var searching := true;
    while searching
      invariant searching ==> count <= |adj| + 1
      invariant count >= 1 ==> actorId1 in adj || adj == map[]
      invariant searching ==> NoGoalBelow(adj, actorId1, goal, count)
      invariant !searching ==> GoalSearch(adj, actorId1, goal, None)
      decreases |adj| + 2 - count
    {
      var empty, path := SearchLevel(data, actorId1, goal, count);
      if path.Some? {
        return path;
      }
      searching := !empty;
      count := count + 1;
    }
    r := None;
  }

  /** The path to the first goal actor met on level k is as good as any. */
  lemma GoalPath(adj: map<ActorId, set<ActorId>>, source: ActorId, goal: ActorId -> bool,
                 path: Option<seq<ActorId>>, x: ActorId, k: nat)
    requires x in Layer(adj, source, k) && Passes(goal, x)
    requires NoGoalBelow(adj, source, goal, k)
    requires path.None? <==> !Reaches(adj, source, x)
    requires path.Some? ==> ShortestPath(adj, source, x, path.value)
    ensures path.Some? && |path.value| == k + 1
    ensures GoalSearch(adj, source, goal, path)
  {
    LevelPathTo(adj, source, path.value, x, k);
  }

  /** A level path ending at an actor of level k has k + 1 entries. */
  lemma LevelPathTo(adj: map<ActorId, set<ActorId>>, source: ActorId, p: seq<ActorId>, x: ActorId, k: nat)
    requires LevelPath(adj, source, p) && p[|p| - 1] == x && x in Layer(adj, source, k)
    ensures |p| == k + 1
  {
    if |p| - 1 < k {
      LayersDisjoint(adj, source, |p| - 1, k);
    } else if |p| - 1 > k {
      LayersDisjoint(adj, source, k, |p| - 1);
    }
  }

  /** `in_film2`: the goal test "is a participant of `film2`". Its meaning
      on built data is stated by `InFilm2Exact` and `InFilm2Misses`. */
  function InFilm2(data: Data, film2: FilmId): (inFilm2: ActorId -> bool)
    requires film2 in data.movies
  {
    a => a in data.movies[film2]
  }

  /** On built data the goal test is sound, since every actor it accepts is
      in some record of `film2`, and it accepts the second actor of every
      record of `film2`. */
  lemma InFilm2Exact(rs: seq<Record>, film2: FilmId, x: ActorId)
    requires film2 in Build(rs).movies
    ensures InFilm2(Build(rs), film2)(x) ==> InFilm(rs, film2, x)
    ensures (exists i :: 0 <= i < |rs| && rs[i].film == film2 && rs[i].actor2 == x) ==> InFilm2(Build(rs), film2)(x)
  {
    BuildMoviesSound(rs);
    BuildRecords(rs);
    if exists i :: 0 <= i < |rs| && rs[i].film == film2 && rs[i].actor2 == x {
      var i :| 0 <= i < |rs| && rs[i].film == film2 && rs[i].actor2 == x;
      assert Recorded(Build(rs), rs[i]);
    }
  }

  /** The goal test can reject an actor of a record of `film2`: the first
      actor of a later record of the film, when both its actors are new to
      it. */
  lemma InFilm2Misses(a: ActorId, b: ActorId, c: ActorId, e: ActorId, f: FilmId)
    requires c != a && c != b && c != e && e != a && e != b
    ensures f in Build([Record(a, b, f), Record(c, e, f)]).movies
    ensures InFilm([Record(a, b, f), Record(c, e, f)], f, c)
    ensures !InFilm2(Build([Record(a, b, f), Record(c, e, f)]), f)(c)
  {
    ParticipantDropped(a, b, c, e, f);
    assert [Record(a, b, f), Record(c, e, f)][1].actor1 == c;
  }

  /** `p` leads from a participant of the first film, level by level, to a
      participant of the second. */
  ghost predicate Bridges(adj: map<ActorId, set<ActorId>>, film1Actors: set<ActorId>, film2Actors: set<ActorId>, p: seq<ActorId>)
  {
    && |p| >= 1
    && p[0] in film1Actors
    && LevelPath(adj, p[0], p)
    && p[|p| - 1] in film2Actors
  }

  /** No participant of the first film is within k - 2 steps of a participant
      of the second: every bridge has at least k actors. */
  ghost predicate NoShorterBridge(adj: map<ActorId, set<ActorId>>, film1Actors: set<ActorId>, film2Actors: set<ActorId>, k: nat)
  {
    forall a, d: nat, x :: a in film1Actors && x in Layer(adj, a, d) && x in film2Actors ==> k <= d + 1
  }

  /** Goal-free levels below k - 1 from `a` leave no bridge from `a` shorter
      than k. */
  lemma NoGoalNoBridge(data: Data, film2: FilmId, a: ActorId, k: nat)
    requires film2 in data.movies && k >= 1
    requires NoGoalBelow(data.actors, a, InFilm2(data, film2), k - 1)
    ensures NoShorterBridge(data.actors, {a}, data.movies[film2], k)
  {
    forall b, d: nat, x | b in {a} && x in Layer(data.actors, b, d) && x in data.movies[film2]
      ensures k <= d + 1
    {
      assert Passes(InFilm2(data, film2), x);
    }
  }

  /** Lower bounds for two groups of sources combine into their minimum. */
  lemma NoShorterBridgeUnion(adj: map<ActorId, set<ActorId>>, s: set<ActorId>, t: set<ActorId>, film2Actors: set<ActorId>,
                             k: nat, m: nat, n: nat)
    requires NoShorterBridge(adj, s, film2Actors, k) && NoShorterBridge(adj, t, film2Actors, m)
    requires n <= k && n <= m
    ensures NoShorterBridge(adj, s + t, film2Actors, n)
  {
  }

  /** A lower bound for a group of sources holds for any part of it. */
  lemma NoShorterBridgeSubset(adj: map<ActorId, set<ActorId>>, s: set<ActorId>, t: set<ActorId>, film2Actors: set<ActorId>, k: nat)
    requires s <= t && NoShorterBridge(adj, t, film2Actors, k)
    ensures NoShorterBridge(adj, s, film2Actors, k)
  {
  }

  /** Films that share a participant have no bridge longer than one actor. */
  lemma SharedActorBridge(adj: map<ActorId, set<ActorId>>, film1Actors: set<ActorId>, film2Actors: set<ActorId>, k: nat)
    requires NoShorterBridge(adj, film1Actors, film2Actors, k)
    requires exists a :: a in film1Actors && a in film2Actors
    ensures k <= 1
  {
    var a :| a in film1Actors && a in film2Actors;
    assert a in Layer(adj, a, 0);
  }

  /** One `actor_path` call of `actors_connecting_films`: from a participant
      `a` of `film1` towards the participants of `film2`. */
  method PathToFilm(data: Data, film1: FilmId, film2: FilmId, a: ActorId) returns (path: Option<seq<ActorId>>)
    requires Valid(data)
    requires film1 in data.movies && film2 in data.movies && a in data.movies[film1]
    requires ReachesGoal(data.actors, a, InFilm2(data, film2))
    ensures path.Some? && Bridges(data.actors, data.movies[film1], data.movies[film2], path.value)
    ensures NoShorterBridge(data.actors, {a}, data.movies[film2], |path.value|)
  {
    assert FilmsValid(data.actors, data.movies);
    path := ActorPath(data, a, InFilm2(data, film2));
    NoGoalNoBridge(data, film2, a, |path.value|);
  }

  /** `actors_connecting_films`: the goal-directed path towards the
      participants of `film2` is computed from every participant of `film1`,
      and the shortest one is kept (the first found among equally short ones). */
  method ActorsConnectingFilms(data: Data, film1: FilmId, film2: FilmId) returns (r: Option<seq<ActorId>>)
    requires Valid(data)
    requires film1 in data.movies && film2 in data.movies
    requires forall a :: a in data.movies[film1] ==> ReachesGoal(data.actors, a, InFilm2(data, film2))
    ensures r.Some? && Bridges(data.actors, data.movies[film1], data.movies[film2], r.value)
    ensures r.Some? ==> NoShorterBridge(data.actors, data.movies[film1], data.movies[film2], |r.value|)
    ensures r.Some? && (exists a :: a in data.movies[film1] && a in data.movies[film2]) ==> |r.value| == 1
  {
    var adj := data.actors;
    var inFilm2 := InFilm2(data, film2);
    var film1Actors := data.movies[film1];
    ghost var film2Actors := data.movies[film2];
    assert FilmsValid(adj, data.movies);
    HasMember(film1Actors);
    var first :| first in film1Actors;
    var path := PathToFilm(data, film1, film2, first);
    var todo := film1Actors;
    ghost var done: set<ActorId> := {};
    while todo != {}
      invariant todo <= film1Actors && film1Actors <= done + todo
      invariant path.Some? && Bridges(adj, film1Actors, film2Actors, path.value)
      invariant NoShorterBridge(adj, done, film2Actors, |path.value|)
      decreases |todo|
    {
      HasMember(todo);
      var actor :| actor in todo;
      var newPath := PathToFilm(data, film1, film2, actor);
      ghost var before := |path.value|;
      if newPath.Some? && |path.value| > |newPath.value| {
        path := newPath;
      }
      NoShorterBridgeUnion(adj, done, {actor}, film2Actors, before, |newPath.value|, |path.value|);
      done := done + {actor};
      todo := todo - {actor};
    }
    NoShorterBridgeSubset(adj, film1Actors, done, film2Actors, |path.value|);
    if exists a :: a in film1Actors && a in film2Actors {
      SharedActorBridge(adj, film1Actors, film2Actors, |path.value|);
    }
    if |path.value| == 0 {
      r := None;
    } else {
      r := path;
    }
  }
}
