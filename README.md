# Bacon numbers: a verified model of `lab.py`

This project models the graph and search core of the "Bacon number" lab in
Dafny. The Python module does four things:

- It turns a list of co-occurrence records `(actor_id_1, actor_id_2, film_id)`
  into three dictionaries:
  - `actors`: actor to the set of actors it acted with;
  - `movies_and_who_with`: actor to its (film, co-actor) links;
  - `movies`: film to its participants.
- It computes the set of actors at exact distance `n` from a source actor
  (the "Bacon number" levels).
- It builds a shortest path between two actors, or from an actor to the
  nearest actor that passes a goal test, by reusing those levels and then
  walking back.
- It derives two further answers from these paths: for each step of a
  path, the first component of a link between its two actors (normally a
  film, see below), and the shortest actor path connecting two films.

The model has three modules:

- `Graph` (`graph.dfy`) covers `check_dic`, `transform_data` and
  `acted_together`:
  - Python's `dict.setdefault` and `check_dic` become map functions.
  - One pass of the record loop is `AddRecord`.
  - The result of the loop is `Build`: three left folds, one per dictionary,
    with `BuildSnoc` tying them back to the single pass.
  - `TransformData` is the imperative loop, proved equal to `Build`.
  - The lemmas state what every built graph satisfies (`Valid`: self-inclusion,
    symmetry, closure, link coverage, non-empty films). They also state the
    adjacency exactly in terms of the records.
  - The `elif` quirk of the participant map is shown by concrete lemmas.
- `Levels` (`levels.dfy`) covers `actors_with_bacon_number_general` and
  `actors_with_bacon_number`. Its reference definition is `Layer(adj, s, k)`:
  the actors within `k` steps of `s` but not within `k - 1`. The imperative
  search, with its nested loops over sets, is proved to return `Layer`.
- `Paths` (`paths.dfy`) covers `actor_to_actor_path`, `bacon_path`,
  `movie_path`, `actor_path`, `in_film2` and `actors_connecting_films`, each
  imperative with its loops. Their contracts say:
  - a returned path is a `LevelPath`: its i-th actor lies on level i, and
    consecutive actors are adjacent;
  - no walk between the same ends is shorter;
  - "no path" is returned exactly when the target or goal is unreachable.

Python picks set elements in hash order (`next(iter(...))`, `for x in s`).
The model picks them with `:|`, so every property holds for every order.
Where the Python code would raise (`KeyError`, `len(None)`, `next` of an
empty iterator), the model has a precondition that rules the crash out.

The model keeps these behaviours of the code as written:

- A negative `n` is not rejected. The `while n > 1` loop is skipped, and
  level 1 is returned.
- `acted_together(a, a)` is `True`, because every actor is in its own set.
- Ties are broken by iteration order, not by a deterministic order on ids.
- The first record of a film adds both its actors (`lab.py:33-34`). A
  later record of a film already known adds at most one actor, so when both
  of its actors are new to the film its first actor is dropped
  (`ParticipantDropped`), and repeating that record then adds it
  (`DuplicateChangesMovies`). This is the `elif` chain at `lab.py:35-38`.
  So `in_film2` can reject an actor who has a record of `film2`
  (`InFilm2Misses`).
- The seed link of a new second actor is `(actor_b, actor_a)`, an actor in
  the film position (`lab.py:29`). This is why actor and film ids share the
  type `int` in the model. After the single record (a, b, f), the links of
  b are (b, a) and (f, a) (`SeedLinkNamesActor`), so for a step from b to a
  the links loop of `movie_path` (`lab.py:167-170`) may return the actor id
  b in place of a film. The model keeps this: `FilmWith` and `MoviePath`
  promise the first component of some link, not a film.

## Model

| member | source | states |
|---|---|---|
| Graph.SetDefault | lab.py:23-24 | `dict.setdefault`: the key set gains `key`, existing entries are untouched, a missing key gets the default |
| Graph.CheckDic | lab.py:3-8 | the set at `key` becomes itself plus `value`, no other entry changes, and an already present value leaves the map unchanged |
| Graph.TransformData | lab.py:10-42 | the record loop returns exactly `Build(rawData)`, the three dictionaries built record by record |
| Graph.AddActors | lab.py:23-26 | the adjacency part of one pass; no contract of its own, its result entry by entry is stated by `Graph.AddActorsShape` |
| Graph.AddActorsShape | lab.py:23-26 | after one record the keys gain both actors, a new actor's entry starts as itself, and each actor's entry gains the other |
| Graph.AddLinks | lab.py:28-31 | the link part of one pass; no contract of its own, its result entry by entry is stated by `Graph.AddLinksShape` |
| Graph.AddLinksShape | lab.py:28-31 | after one record a new actor_a is seeded with (f, actor_a), a new actor_b with (actor_b, actor_a), and each gains the link (f, other actor) |
| Graph.AddFilm | lab.py:33-38 | the participant part of one pass; no contract of its own, its effect is stated by `Graph.AddFilmSound`, `Graph.AddFilmGrows` and `Graph.ParticipantDropped` |
| Graph.AddFilmSound | lab.py:33-38 | a participant after one record was one before, or is an actor of that record of that film |
| Graph.AddRecord | lab.py:22-38 | one pass of the loop body; no contract of its own, `Graph.BuildSnoc` and `Graph.AddRecordGrows` state it |
| Graph.SeedLinkNamesActor | lab.py:28-31 | after the record (a, b, f) the links of b are exactly (b, a) and (f, a): two links name a, one with an actor id first |
| Graph.BuildSnoc | lab.py:22-38 | building one more record is one pass of the loop body over all three dictionaries |
| Graph.BuildValid | lab.py:19-39 | every result of `transform_data` is self-including, symmetric and closed, every link names a neighbour and every distinct neighbour has a link, and every film has participants that are all actors |
| Graph.BuildActors | lab.py:23-26 | the actors are exactly those appearing in some record, and an actor's set holds exactly itself and the actors it shares a record with |
| Graph.AddRecordGrows | lab.py:22-38 | no pass removes anything: keys and entries of all three dictionaries only grow |
| Graph.BuildRecords | lab.py:28-38 | after the loop, for every record (a, b, f): (f, b) is a link of a, (f, a) is a link of b, and b is a participant of f |
| Graph.BuildMoviesSound | lab.py:33-38 | every participant of a film comes from a record of that film |
| Graph.ParticipantDropped | lab.py:33-38 | for records (a, b, f), (c, e, f) with c and e new to f, participants of f are {a, b, e}: c is dropped |
| Graph.DuplicateChangesMovies | lab.py:33-38 | repeating (c, e, f) then adds c, so `movies` depends on duplicates |
| Graph.DuplicateRecord | lab.py:22-31 | a repeated record leaves `actors` and `movies_and_who_with` unchanged |
| Graph.TwoRecordsActors | lab.py:23-26 | two records (a, b, f), (b, c, g) give the adjacency a: {a, b}, b: {a, b, c}, c: {b, c} |
| Graph.TwoRecordsLinks | lab.py:28-31 | the same records give the link sets with seeds (f, a), (b, a) and (c, b) |
| Graph.TwoRecordsMovies | lab.py:33-34 | the same records give films f: {a, b}, g: {b, c} |
| Graph.ActedTogether | lab.py:54-57 | the lookup `actor_id_2 in actors[actor_id_1]`; no contract of its own, its meaning is proved by `Graph.ActedTogetherExact` and `Graph.ActedTogetherSymmetric` |
| Graph.ActedTogetherExact | lab.py:44-57 | on built data `acted_together(a, b)` holds exactly when a == b or some record pairs a with b |
| Graph.ActedTogetherSymmetric | lab.py:44-57 | on built data `acted_together` is symmetric and true for an actor with itself |
| Levels.AddChildren | lab.py:94-96 | the children loop adds exactly the children that are neither checked nor parents |
| Levels.NewParents | lab.py:91-96 | the parent loop collects exactly the neighbours of unchecked parents that are neither checked nor parents |
| Levels.ActorsWithBaconNumberGeneral | lab.py:70-100 | the result is the set of actors at exact distance n from `actor_id` (distance 1 for negative n), including the `n > len` shortcut and the n = 0 case |
| Levels.ActorsWithBaconNumber | lab.py:59-68 | the same search from the fixed id 4724 |
| Levels.LayerBeyond | lab.py:80-81 | every level beyond the number of actors is empty, so the shortcut agrees with the search |
| Levels.LayersDisjoint | lab.py:76-77 | distinct levels share no actor, so each actor has at most one Bacon number |
| Levels.LayerIsDistance | lab.py:76-77 | an actor on level k is reached by no walk of fewer than k steps |
| Levels.LayerEmptyStays | lab.py:133-134 | once a level is empty every later level is empty, so stopping at an empty level loses nothing |
| Levels.LayerBound | lab.py:126-135 | a nonempty level k has k at most the number of actors, which bounds the search loops |
| Levels.Predecessor | lab.py:141-145 | every actor on level k + 1 has a co-star on level k, so the walk-back intersection is never empty |
| Paths.ActorToActorPath | lab.py:114-149 | `None` exactly when `actor_id_2` is unreachable; otherwise a level path from `actor_id_1` ending at `actor_id_2`, with `actor_id_2` on no earlier level; `[a]` when both ids are equal |
| Paths.WalkBack | lab.py:136-149 | the backtracking from level d yields d + 1 actors ending at `actor_id_2`, each adjacent to the next and each on the recorded level of its position |
| Paths.LevelPathIsShortest | lab.py:120-121 | no walk between the ends of a level path is shorter than it |
| Paths.NotReached | lab.py:133-134 | an empty level reached before the target means the target is unreachable |
| Paths.BaconPath | lab.py:102-112 | the shortest path from the fixed id 4724, with the same guarantees |
| Paths.FilmWith | lab.py:166-170 | the links loop returns the first component of a link that names the next actor (a film, or an actor id through the seed link) |
| Paths.MoviePath | lab.py:151-171 | there is a shortest path from `actor_id_1` to `actor_id_2` with one id per step, each the first component of a link of that step's first actor naming its second |
| Paths.FirstGoal | lab.py:191-194 | the scan of one level finds an actor passing the goal exactly when the level has one |
| Paths.SearchLevel | lab.py:186-195 | one round of the outer loop reports whether the level is empty, and returns a nearest goal path when the level holds a goal actor; otherwise no level up to this one holds a goal actor, an empty level means no goal actor is reachable at all, and a non-empty level lies within the number of actors |
| Paths.ActorPath | lab.py:173-196 | `None` exactly when no reachable actor passes the goal; otherwise a level path to a goal actor with no goal actor on an earlier level |
| Paths.NoGoalAtAll | lab.py:189-196 | leaving the loop at an empty level with no goal seen means no reachable actor passes the goal |
| Paths.InFilm2 | lab.py:208-211 | the goal test "is in `movies[film2]`"; no contract of its own, its meaning on built data is stated by `Paths.InFilm2Exact` and `Paths.InFilm2Misses` |
| Paths.InFilm2Exact | lab.py:208-211 | on built data every actor the test accepts has a record of `film2`, and the second actor of every record of `film2` is accepted |
| Paths.InFilm2Misses | lab.py:208-211 | the test rejects the first actor of a later record of `film2` whose two actors are both new to the film |
| Paths.PathToFilm | lab.py:216 | one `actor_path` call from a participant of `film1`: a path to a participant of `film2`, no shorter path from that actor |
| Paths.ActorsConnectingFilms | lab.py:198-221 | a path from a participant of `film1` to one of `film2`, no pair of participants has a shorter one, and a shared participant gives a one-actor path |
| Paths.SharedActorBridge | lab.py:219-221 | when the films share a participant, the shortest connecting path has one actor |

## Left out

- The `__main__` block (`lab.py:223-264`) loads pickled datasets and prints
  results. This is file I/O and printing; the records are the input of
  `TransformData` instead.
- Set iteration order is not modelled. Every `next(iter(...))` and every
  `for` over a set is an arbitrary choice (`:|`). So the model does not fix
  which of several equally short paths, or which film of several links, is
  returned.
- Paths.ActorToActorPath, Paths.BaconPath and Paths.MoviePath require that
  the source actor is an actor, or equals the target, or that there are no
  actors. Otherwise the Python code raises `KeyError` in the level search.
  Paths.ActorToActorPath and Paths.BaconPath also require the adjacency to
  be symmetric and closed. Paths.MoviePath requires all of `Valid`, link
  coverage included, so that every step has a link. Every result of
  `transform_data` satisfies these (`BuildValid`).
- Paths.MoviePath requires the target to be reachable: otherwise
  `len(None)` raises in the Python code.
- Paths.ActorPath requires that the source is an actor, or passes the goal,
  or that there are no actors. Otherwise level 1 raises `KeyError`.
- Paths.ActorsConnectingFilms requires that every participant of `film1`
  reaches a participant of `film2`. Python raises on `len(None)` when the
  first participant it picks has no path. Since the pick is modelled as
  arbitrary, crash-freedom under every iteration order needs this of every
  participant. Two participants of one film need not be adjacent (see
  `ParticipantDropped`), so "some participant reaches `film2`" is not
  enough.
- Paths.ActorsConnectingFilms: the `len(path) == 0` branch
  (`lab.py:219-220`) is modelled but can never be taken, because every path
  has at least one actor. So the result is never `None`.
- Levels.ActorsWithBaconNumberGeneral requires, for `n` not 0 and not above
  the number of actors, that `actor_id` is an actor; otherwise
  `transformed_data[actor_id]` raises `KeyError`.
- Graph.ActedTogether has no contract of its own; its meaning is stated by
  Graph.ActedTogetherExact and Graph.ActedTogetherSymmetric. Its
  precondition that the first actor is an actor is the `KeyError` of the
  lookup.
- Paths.InFilm2 has no contract of its own; its meaning is stated by
  Paths.InFilm2Exact and Paths.InFilm2Misses.
- Python's `goal_test_function` is any callable. The model takes a total,
  side-effect-free Dafny function `ActorId -> bool`.
- Integer ids are unbounded; the Python ids are unbounded too, so no width
  is modelled.
