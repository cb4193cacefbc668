/**
 * Graph construction: one pass over (actor, actor, film) records builds the
 * adjacency map, the per-actor set of (film, co-actor) links and the per-film
 * participant sets, exactly as `transform_data` in lab.py does it, quirks
 * included (see `AddRecord`).
 */
module Graph {

  /** Identifiers are integers in the source; actors and films share the type
      because one of the link seeds stores an actor where a film belongs. */
  type ActorId = int
  type FilmId = int

  /** A (film, co-actor) pair of `movies_and_who_with`. */
  type Link = (FilmId, ActorId)

  /** One co-occurrence record `(actor_id_1, actor_id_2, film_id)`. */
  datatype Record = Record(actor1: ActorId, actor2: ActorId, film: FilmId)

  /** The three dictionaries `transform_data` returns. */
  datatype Data = Data(actors: map<ActorId, set<ActorId>>,
                       moviesAndWhoWith: map<ActorId, set<Link>>,
                       movies: map<FilmId, set<ActorId>>)

  /** Python's `dict.setdefault`: inserts `default` only for a missing key and
      never changes an existing entry. */
  function SetDefault<K, V>(dic: map<K, V>, key: K, default: V): (r: map<K, V>)
    ensures r.Keys == dic.Keys + {key}
    ensures forall k :: k in dic ==> r[k] == dic[k]
    ensures key !in dic ==> r[key] == default
  {
    if key in dic then dic else dic[key := default]
  }

  /** `check_dic`: adds `value` to the set stored at `key` if it is not there
      yet; nothing else changes, and a value already present changes nothing. */
  function CheckDic<K, V>(dic: map<K, set<V>>, key: K, value: V): (r: map<K, set<V>>)
    requires key in dic
    ensures r.Keys == dic.Keys
    ensures r[key] == dic[key] + {value}
    ensures forall k :: k in dic && k != key ==> r[k] == dic[k]
    ensures value in dic[key] ==> r == dic
  {
    if value !in dic[key] then dic[key := dic[key] + {value}] else dic
  }

  /** The adjacency part of one pass of the `for tup in raw_data` loop of
      `transform_data`: both actors are seeded with themselves, then each is
      added to the other's set. */
  function AddActors(adj: map<ActorId, set<ActorId>>, t: Record): map<ActorId, set<ActorId>>
  {
    var seeded := SetDefault(SetDefault(adj, t.actor1, {t.actor1}), t.actor2, {t.actor2});
    CheckDic(CheckDic(seeded, t.actor1, t.actor2), t.actor2, t.actor1)
  }

  /** The link part of one pass. A new actor_b is seeded with the link
      (actor_b, actor_a), whose first component is an actor, not a film. */
  function AddLinks(links: map<ActorId, set<Link>>, t: Record): map<ActorId, set<Link>>
  {
    var seeded := SetDefault(SetDefault(links, t.actor1, {(t.film, t.actor1)}), t.actor2, {(t.actor2, t.actor1)});
    CheckDic(CheckDic(seeded, t.actor1, (t.film, t.actor2)), t.actor2, (t.film, t.actor1))
  }

  /** The participant part of one pass. The `elif` chain adds at most one
      actor to a film that is already known, so actor_a can be left out. */
  function AddFilm(movies: map<FilmId, set<ActorId>>, t: Record): map<FilmId, set<ActorId>>
  {
    if t.film !in movies then movies[t.film := {t.actor1, t.actor2}]
    else if t.actor2 !in movies[t.film] then movies[t.film := movies[t.film] + {t.actor2}]
    else if t.actor1 !in movies[t.film] then movies[t.film := movies[t.film] + {t.actor1}]
    else movies
  }

  /** One pass of the loop of `transform_data`. */
  function AddRecord(d: Data, t: Record): Data
  {
    Data(AddActors(d.actors, t), AddLinks(d.moviesAndWhoWith, t), AddFilm(d.movies, t))
  }

  /** The adjacency map built from a sequence of records, left to right. */
  function ActedWith(rs: seq<Record>): map<ActorId, set<ActorId>>
  {
    if |rs| == 0 then map[] else AddActors(ActedWith(rs[..|rs| - 1]), rs[|rs| - 1])
  }

  /** The link map built from a sequence of records, left to right. */
  function MoviesAndWhoWith(rs: seq<Record>): map<ActorId, set<Link>>
  {
    if |rs| == 0 then map[] else AddLinks(MoviesAndWhoWith(rs[..|rs| - 1]), rs[|rs| - 1])
  }

  /** The participant map built from a sequence of records, left to right. */
  function Movies(rs: seq<Record>): map<FilmId, set<ActorId>>
  {
    if |rs| == 0 then map[] else AddFilm(Movies(rs[..|rs| - 1]), rs[|rs| - 1])
  }

  /** The data built from a sequence of records. No map is read while
      another is updated, so the one loop of `transform_data` is the three
      folds side by side (`BuildSnoc` states it as one pass per record). */
  function Build(rs: seq<Record>): Data
  {
    Data(ActedWith(rs), MoviesAndWhoWith(rs), Movies(rs))
  }

  /** `transform_data`: the loop that fills the three dictionaries. */
  method TransformData(rawData: seq<Record>) returns (data: Data)
    ensures data == Build(rawData)
  {
    var actedWith: map<ActorId, set<ActorId>> := map[];
    var moviesAndWhoWith: map<ActorId, set<Link>> := map[];
    var movies: map<FilmId, set<ActorId>> := map[];
    for i := 0 to |rawData|
      invariant Data(actedWith, moviesAndWhoWith, movies) == Build(rawData[..i])
    {
      var tup := rawData[i];
      actedWith := SetDefault(actedWith, tup.actor1, {tup.actor1});
      actedWith := SetDefault(actedWith, tup.actor2, {tup.actor2});
      actedWith := CheckDic(actedWith, tup.actor1, tup.actor2);
      actedWith := CheckDic(actedWith, tup.actor2, tup.actor1);

      moviesAndWhoWith := SetDefault(moviesAndWhoWith, tup.actor1, {(tup.film, tup.actor1)});
      moviesAndWhoWith := SetDefault(moviesAndWhoWith, tup.actor2, {(tup.actor2, tup.actor1)});
      moviesAndWhoWith := CheckDic(moviesAndWhoWith, tup.actor1, (tup.film, tup.actor2));
      moviesAndWhoWith := CheckDic(moviesAndWhoWith, tup.actor2, (tup.film, tup.actor1));

      if tup.film !in movies {
        movies := movies[tup.film := {tup.actor1, tup.actor2}];
      } else if tup.actor2 !in movies[tup.film] {
        movies := movies[tup.film := movies[tup.film] + {tup.actor2}];
      } else if tup.actor1 !in movies[tup.film] {
        movies := movies[tup.film := movies[tup.film] + {tup.actor1}];
      }
      assert rawData[..i + 1][..i] == rawData[..i];
    }
    assert rawData[..|rawData|] == rawData;
    data := Data(actedWith, moviesAndWhoWith, movies);
  }

  /** `acted_together`: a single lookup in the adjacency map. */
  function ActedTogether(data: Data, actorId1: ActorId, actorId2: ActorId): bool
    requires actorId1 in data.actors
  {
    actorId2 in data.actors[actorId1]
  }

  // ---------------------------------------------------------------------
  // Invariants of built data

  /** Every actor is its own neighbour. */
  ghost predicate SelfIncluded(adj: map<ActorId, set<ActorId>>)
  {
    forall a :: a in adj ==> a in adj[a]
  }

  /** Every neighbour is itself a key. */
  ghost predicate Closed(adj: map<ActorId, set<ActorId>>)
  {
    forall a, b :: a in adj && b in adj[a] ==> b in adj
  }

  /** `b` is listed among the actors `a` acted with. */
  ghost predicate CoStar(adj: map<ActorId, set<ActorId>>, a: ActorId, b: ActorId)
  {
    a in adj && b in adj[a]
  }

  /** Adjacency is closed and symmetric. (Stated on `CoStar` so that it is
      only instantiated where a proof mentions a `CoStar` pair.) */
  ghost predicate Symmetric(adj: map<ActorId, set<ActorId>>)
  {
    forall a, b :: CoStar(adj, a, b) ==> CoStar(adj, b, a)
  }

  /** The link map has the same actors, every link points to a neighbour, and
      every pair of distinct neighbours has a link. */
  ghost predicate LinksValid(adj: map<ActorId, set<ActorId>>, links: map<ActorId, set<Link>>)
  {
    && links.Keys == adj.Keys
    && (forall x, l :: x in links && l in links[x] ==> l.1 in adj[x])
    && (forall a, b :: CoStar(adj, a, b) && a != b ==> exists l: Link :: l in links[a] && l.1 == b)
  }

  /** Every film has at least one participant, and participants are actors. */
  ghost predicate FilmsValid(adj: map<ActorId, set<ActorId>>, movies: map<FilmId, set<ActorId>>)
  {
    forall f :: f in movies ==> movies[f] != {} && movies[f] <= adj.Keys
  }

  /** What every result of `transform_data` satisfies and what the searches
      rely on to avoid a `KeyError` or an empty backtracking step. */
  ghost predicate Valid(d: Data)
  {
    && SelfIncluded(d.actors)
    && Symmetric(d.actors)
    && Closed(d.actors)
    && LinksValid(d.actors, d.moviesAndWhoWith)
    && FilmsValid(d.actors, d.movies)
  }

  lemma SymmetricIsClosed(adj: map<ActorId, set<ActorId>>)
    requires Symmetric(adj)
    ensures Closed(adj)
  {
    forall a, b | a in adj && b in adj[a]
      ensures b in adj
    {
      assert CoStar(adj, a, b);
    }
  }

  // ---------------------------------------------------------------------
  // Reference definitions over the records themselves

  /** `x` is one of the two actors of some record. */
  ghost predicate Appears(rs: seq<Record>, x: ActorId)
  {
    exists i :: 0 <= i < |rs| && (rs[i].actor1 == x || rs[i].actor2 == x)
  }

  /** Some record pairs `x` with `y`, in either order. */
  ghost predicate CoActed(rs: seq<Record>, x: ActorId, y: ActorId)
  {
    exists i :: 0 <= i < |rs| &&
      ((rs[i].actor1 == x && rs[i].actor2 == y) || (rs[i].actor1 == y && rs[i].actor2 == x))
  }

  /** `x` is one of the two actors of some record of film `f`. */
  ghost predicate InFilm(rs: seq<Record>, f: FilmId, x: ActorId)
  {
    exists i :: 0 <= i < |rs| && rs[i].film == f && (rs[i].actor1 == x || rs[i].actor2 == x)
  }

  // ---------------------------------------------------------------------
  // One record at a time

  /** The adjacency map after one record, entry by entry. */
  lemma AddActorsShape(adj: map<ActorId, set<ActorId>>, t: Record)
    ensures AddActors(adj, t).Keys == adj.Keys + {t.actor1, t.actor2}
    ensures forall x :: x in AddActors(adj, t) ==>
      AddActors(adj, t)[x] ==
        (if x in adj then adj[x] else {x})
        + (if x == t.actor1 then {t.actor2} else {})
        + (if x == t.actor2 then {t.actor1} else {})
  {
  }

  /** The link map after one record, entry by entry. */
  lemma AddLinksShape(links: map<ActorId, set<Link>>, t: Record)
    ensures AddLinks(links, t).Keys == links.Keys + {t.actor1, t.actor2}
    ensures forall x :: x in AddLinks(links, t) ==>
      AddLinks(links, t)[x] ==
        (if x in links then links[x]
         else if x == t.actor1 then {(t.film, t.actor1)} else {(t.actor2, t.actor1)})
        + (if x == t.actor1 then {(t.film, t.actor2)} else {})
        + (if x == t.actor2 then {(t.film, t.actor1)} else {})
  {
  }

  lemma AddActorsValid(adj: map<ActorId, set<ActorId>>, t: Record)
    requires SelfIncluded(adj) && Symmetric(adj)
    ensures SelfIncluded(AddActors(adj, t)) && Symmetric(AddActors(adj, t))
  {
    var adj' := AddActors(adj, t);
    AddActorsShape(adj, t);
    forall a, b | CoStar(adj', a, b)
      ensures CoStar(adj', b, a)
    {
      if a in adj && b in adj[a] {
        assert CoStar(adj, a, b);
      }
    }
  }

  lemma AddLinksToNeighbours(adj: map<ActorId, set<ActorId>>, links: map<ActorId, set<Link>>, t: Record)
    requires SelfIncluded(adj) && links.Keys == adj.Keys
    requires forall x, l :: x in links && l in links[x] ==> l.1 in adj[x]
    ensures forall x, l :: x in AddLinks(links, t) && l in AddLinks(links, t)[x] ==> l.1 in AddActors(adj, t)[x]
  {
    var adj', links' := AddActors(adj, t), AddLinks(links, t);
    AddActorsShape(adj, t);
    AddLinksShape(links, t);
    forall x, l: Link | x in links' && l in links'[x]
      ensures l.1 in adj'[x]
    {
      if x in links {
        assert links'[x] == links[x] + (if x == t.actor1 then {(t.film, t.actor2)} else {})
          + (if x == t.actor2 then {(t.film, t.actor1)} else {});
        if l in links[x] {
          assert l.1 in adj[x];
        }
      }
    }
  }

  lemma AddLinksCover(adj: map<ActorId, set<ActorId>>, links: map<ActorId, set<Link>>, t: Record)
    requires links.Keys == adj.Keys
    requires forall a, b :: CoStar(adj, a, b) && a != b ==> exists l: Link :: l in links[a] && l.1 == b
    ensures AddLinks(links, t).Keys == AddActors(adj, t).Keys
    ensures forall a, b :: CoStar(AddActors(adj, t), a, b) && a != b ==>
      exists l: Link :: l in AddLinks(links, t)[a] && l.1 == b
  {
    var adj', links' := AddActors(adj, t), AddLinks(links, t);
    AddActorsShape(adj, t);
    AddLinksShape(links, t);
    forall a, b | CoStar(adj', a, b) && a != b
      ensures exists l: Link :: l in links'[a] && l.1 == b
    {
      if a == t.actor1 && b == t.actor2 {
        assert (t.film, b) in links'[a];
      } else if a == t.actor2 && b == t.actor1 {
        assert (t.film, b) in links'[a];
      } else {
        assert CoStar(adj, a, b);
        var l: Link :| l in links[a] && l.1 == b;
        assert l in links'[a];
      }
    }
  }

  lemma AddLinksValid(adj: map<ActorId, set<ActorId>>, links: map<ActorId, set<Link>>, t: Record)
    requires SelfIncluded(adj) && LinksValid(adj, links)
    ensures LinksValid(AddActors(adj, t), AddLinks(links, t))
  {
    AddLinksToNeighbours(adj, links, t);
    AddLinksCover(adj, links, t);
  }

  lemma AddFilmValid(adj: map<ActorId, set<ActorId>>, movies: map<FilmId, set<ActorId>>, t: Record)
    requires FilmsValid(adj, movies)
    ensures FilmsValid(AddActors(adj, t), AddFilm(movies, t))
  {
    AddActorsShape(adj, t);
  }

  // ---------------------------------------------------------------------
  // Properties of built data

  /** Every result of `transform_data` is `Valid`. */
  lemma {:induction false} BuildValid(rs: seq<Record>)
    ensures Valid(Build(rs))
  {
    if |rs| > 0 {
      var init, t := rs[..|rs| - 1], rs[|rs| - 1];
      BuildValid(init);
      var d := Build(init);
      AddActorsValid(d.actors, t);
      SymmetricIsClosed(AddActors(d.actors, t));
      AddLinksValid(d.actors, d.moviesAndWhoWith, t);
      AddFilmValid(d.actors, d.movies, t);
    }
  }

  lemma AppearsSnoc(rs: seq<Record>, x: ActorId)
    requires |rs| > 0
    ensures Appears(rs, x) <==>
      Appears(rs[..|rs| - 1], x) || x == rs[|rs| - 1].actor1 || x == rs[|rs| - 1].actor2
  {
    var init := rs[..|rs| - 1];
    if Appears(rs, x) {
      var i :| 0 <= i < |rs| && (rs[i].actor1 == x || rs[i].actor2 == x);
      if i < |init| { assert init[i] == rs[i]; }
    }
    if Appears(init, x) {
      var i :| 0 <= i < |init| && (init[i].actor1 == x || init[i].actor2 == x);
      assert rs[i] == init[i];
    }
  }

  lemma CoActedSnoc(rs: seq<Record>, x: ActorId, y: ActorId)
    requires |rs| > 0
    ensures CoActed(rs, x, y) <==>
      || CoActed(rs[..|rs| - 1], x, y)
      || (x == rs[|rs| - 1].actor1 && y == rs[|rs| - 1].actor2)
      || (x == rs[|rs| - 1].actor2 && y == rs[|rs| - 1].actor1)
  {
    var init := rs[..|rs| - 1];
    if CoActed(rs, x, y) {
      var i :| 0 <= i < |rs| &&
        ((rs[i].actor1 == x && rs[i].actor2 == y) || (rs[i].actor1 == y && rs[i].actor2 == x));
      if i < |init| { assert init[i] == rs[i]; }
    }
    if CoActed(init, x, y) {
      var i :| 0 <= i < |init| &&
        ((init[i].actor1 == x && init[i].actor2 == y) || (init[i].actor1 == y && init[i].actor2 == x));
      assert rs[i] == init[i];
    }
  }

  /** One entry of the adjacency map after one record. */
  lemma AddActorsMember(adj: map<ActorId, set<ActorId>>, t: Record, x: ActorId, y: ActorId)
    requires x in AddActors(adj, t)
    ensures y in AddActors(adj, t)[x] <==>
      || (if x in adj then y in adj[x] else y == x)
      || (x == t.actor1 && y == t.actor2)
      || (x == t.actor2 && y == t.actor1)
  {
    AddActorsShape(adj, t);
  }

  lemma CoActedAppears(rs: seq<Record>, x: ActorId, y: ActorId)
    requires CoActed(rs, x, y)
    ensures Appears(rs, x)
  {
    var i :| 0 <= i < |rs| &&
      ((rs[i].actor1 == x && rs[i].actor2 == y) || (rs[i].actor1 == y && rs[i].actor2 == x));
  }

  /** The keys of `actors` are exactly the actors of the records, and an
      actor's neighbours are itself and exactly the actors it shares a record
      with. */
  lemma {:induction false} BuildActors(rs: seq<Record>)
    ensures forall x :: x in Build(rs).actors <==> Appears(rs, x)
    ensures forall x, y :: x in Build(rs).actors ==>
      (y in Build(rs).actors[x] <==> x == y || CoActed(rs, x, y))
  {
    if |rs| > 0 {
      var init, t := rs[..|rs| - 1], rs[|rs| - 1];
      BuildActors(init);
      var adj := ActedWith(init);
      assert ActedWith(rs) == AddActors(adj, t);
      forall x
        ensures x in ActedWith(rs) <==> Appears(rs, x)
      {
        AddActorsShape(adj, t);
        AppearsSnoc(rs, x);
      }
      forall x, y | x in ActedWith(rs)
        ensures y in ActedWith(rs)[x] <==> x == y || CoActed(rs, x, y)
      {
        CoActedSnoc(rs, x, y);
        AddActorsMember(adj, t, x, y);
        if x !in adj && CoActed(init, x, y) {
          CoActedAppears(init, x, y);
        }
      }
    }
  }

  lemma AddActorsGrows(adj: map<ActorId, set<ActorId>>, t: Record)
    ensures adj.Keys <= AddActors(adj, t).Keys
    ensures forall x :: x in adj ==> adj[x] <= AddActors(adj, t)[x]
  {
    AddActorsShape(adj, t);
  }

  lemma AddLinksGrows(links: map<ActorId, set<Link>>, t: Record)
    ensures links.Keys <= AddLinks(links, t).Keys
    ensures forall x :: x in links ==> links[x] <= AddLinks(links, t)[x]
  {
    AddLinksShape(links, t);
  }

  lemma AddFilmGrows(movies: map<FilmId, set<ActorId>>, t: Record)
    ensures movies.Keys <= AddFilm(movies, t).Keys
    ensures forall f :: f in movies ==> movies[f] <= AddFilm(movies, t)[f]
  {
    var movies' := AddFilm(movies, t);
    assert movies'.Keys == movies.Keys + {t.film};
    forall f | f in movies
      ensures movies[f] <= movies'[f]
    {
      if f == t.film {
        assert movies'[f] == movies[f] + (movies'[f] - movies[f]);
      } else {
        assert movies'[f] == movies[f];
      }
    }
  }

  /** No record is ever undone: entries of all three maps only grow. */
  lemma AddRecordGrows(d: Data, t: Record)
    ensures d.actors.Keys <= AddRecord(d, t).actors.Keys
    ensures forall x :: x in d.actors ==> d.actors[x] <= AddRecord(d, t).actors[x]
    ensures d.moviesAndWhoWith.Keys <= AddRecord(d, t).moviesAndWhoWith.Keys
    ensures forall x :: x in d.moviesAndWhoWith ==> d.moviesAndWhoWith[x] <= AddRecord(d, t).moviesAndWhoWith[x]
    ensures d.movies.Keys <= AddRecord(d, t).movies.Keys
    ensures forall f :: f in d.movies ==> d.movies[f] <= AddRecord(d, t).movies[f]
  {
    AddActorsGrows(d.actors, t);
    AddLinksGrows(d.moviesAndWhoWith, t);
    AddFilmGrows(d.movies, t);
  }

  /** What record (a, b, f) leaves behind: (f, b) is a link of a and (f, a)
      a link of b, f is a film and b one of its participants. */
  ghost predicate Recorded(d: Data, t: Record)
  {
    && t.actor1 in d.moviesAndWhoWith
    && t.actor2 in d.moviesAndWhoWith
    && (t.film, t.actor2) in d.moviesAndWhoWith[t.actor1]
    && (t.film, t.actor1) in d.moviesAndWhoWith[t.actor2]
    && t.film in d.movies
    && t.actor2 in d.movies[t.film]
  }

  lemma AddRecordRecorded(d: Data, t: Record, u: Record)
    requires u == t || Recorded(d, u)
    ensures Recorded(AddRecord(d, t), u)
  {
    AddRecordGrows(d, t);
    AddLinksShape(d.moviesAndWhoWith, t);
  }

  /** Every record is `Recorded` in the built data. That actor_a is a
      participant of the film is not guaranteed (see `ParticipantDropped`). */
  lemma {:induction false} BuildRecords(rs: seq<Record>)
    ensures forall i :: 0 <= i < |rs| ==> Recorded(Build(rs), rs[i])
  {
    if |rs| > 0 {
      var init, t := rs[..|rs| - 1], rs[|rs| - 1];
      BuildRecords(init);
      forall i | 0 <= i < |rs|
        ensures Recorded(Build(rs), rs[i])
      {
        if i < |init| {
          assert rs[i] == init[i];
        }
        AddRecordRecorded(Build(init), t, rs[i]);
      }
    }
  }

  /** A participant after one record was one before, or is an actor of it. */
  lemma AddFilmSound(movies: map<FilmId, set<ActorId>>, t: Record, f: FilmId, x: ActorId)
    requires f in AddFilm(movies, t) && x in AddFilm(movies, t)[f]
    ensures (f in movies && x in movies[f]) || (f == t.film && (x == t.actor1 || x == t.actor2))
  {
  }

  lemma InFilmPrefix(rs: seq<Record>, f: FilmId, x: ActorId)
    requires |rs| > 0 && InFilm(rs[..|rs| - 1], f, x)
    ensures InFilm(rs, f, x)
  {
    var init := rs[..|rs| - 1];
    var i :| 0 <= i < |init| && init[i].film == f && (init[i].actor1 == x || init[i].actor2 == x);
    assert rs[i] == init[i];
  }

  /** Every participant of a film comes from a record of that film. */
  lemma {:induction false} BuildMoviesSound(rs: seq<Record>)
    ensures forall f, x :: f in Build(rs).movies && x in Build(rs).movies[f] ==> InFilm(rs, f, x)
  {
    if |rs| > 0 {
      var init, t := rs[..|rs| - 1], rs[|rs| - 1];
      BuildMoviesSound(init);
      var movies := Movies(init);
      assert Movies(rs) == AddFilm(movies, t);
      forall f, x | f in Movies(rs) && x in Movies(rs)[f]
        ensures InFilm(rs, f, x)
      {
        AddFilmSound(movies, t, f, x);
        if f in movies && x in movies[f] {
          InFilmPrefix(rs, f, x);
        } else {
          assert rs[|rs| - 1] == t;
        }
      }
    }
  }

  /** `acted_together` is exactly "same actor, or paired by some record". */
  lemma ActedTogetherExact(rs: seq<Record>, a: ActorId, b: ActorId)
    requires a in Build(rs).actors
    ensures ActedTogether(Build(rs), a, b) <==> a == b || CoActed(rs, a, b)
  {
    BuildActors(rs);
  }

  /** On built data `acted_together` is symmetric and holds for an actor
      and itself. */
  lemma ActedTogetherSymmetric(rs: seq<Record>, a: ActorId, b: ActorId)
    requires a in Build(rs).actors && b in Build(rs).actors
    ensures ActedTogether(Build(rs), a, b) == ActedTogether(Build(rs), b, a)
    ensures ActedTogether(Build(rs), a, a)
  {
    var d := Build(rs);
    BuildValid(rs);
    assert SelfIncluded(d.actors);
    if b in d.actors[a] {
      assert CoStar(d.actors, a, b);
    }
    if a in d.actors[b] {
      assert CoStar(d.actors, b, a);
    }
  }

  /** A repeated record leaves the adjacency and link maps unchanged. */
  lemma DuplicateRecord(rs: seq<Record>, t: Record)
    requires t in rs
    ensures AddRecord(Build(rs), t).actors == Build(rs).actors
    ensures AddRecord(Build(rs), t).moviesAndWhoWith == Build(rs).moviesAndWhoWith
  {
    BuildRecords(rs);
    BuildActors(rs);
    var i :| 0 <= i < |rs| && rs[i] == t;
    assert Recorded(Build(rs), rs[i]);
    assert CoActed(rs, t.actor1, t.actor2) && CoActed(rs, t.actor2, t.actor1);
  }

  lemma BuildSnoc(rs: seq<Record>, t: Record)
    ensures Build(rs + [t]) == AddRecord(Build(rs), t)
  {
    assert (rs + [t])[..|rs|] == rs;
  }

  /** A second record of a film with two actors new to it: the `elif` chain
      adds only its second actor, so its first actor `c` is not recorded as a
      participant of the film. */
  lemma ParticipantDropped(a: ActorId, b: ActorId, c: ActorId, e: ActorId, f: FilmId)
    requires c != a && c != b && c != e && e != a && e != b
    ensures f in Build([Record(a, b, f), Record(c, e, f)]).movies
    ensures Build([Record(a, b, f), Record(c, e, f)]).movies[f] == {a, b, e}
    ensures c !in Build([Record(a, b, f), Record(c, e, f)]).movies[f]
  {
    var r1, r2 := Record(a, b, f), Record(c, e, f);
    assert [r1, r2][..1] == [r1] && [r1][..0] == [];
    var m1: map<FilmId, set<ActorId>> := map[f := {a, b}];
    assert Movies([r1]) == m1;
    assert e !in m1[f];
    assert Movies([r1, r2]) == m1[f := m1[f] + {e}];
  }

  /** Repeating that second record does change `movies`: the third pass adds
      `c`, so the participant sets depend on duplicates and on order. */
  lemma DuplicateChangesMovies(a: ActorId, b: ActorId, c: ActorId, e: ActorId, f: FilmId)
    requires c != a && c != b && c != e && e != a && e != b
    ensures Build([Record(a, b, f), Record(c, e, f), Record(c, e, f)]).movies[f] == {a, b, c, e}
    ensures Build([Record(a, b, f), Record(c, e, f), Record(c, e, f)]).movies
         != Build([Record(a, b, f), Record(c, e, f)]).movies
  {
    var r1, r2 := Record(a, b, f), Record(c, e, f);
    ParticipantDropped(a, b, c, e, f);
    assert [r1, r2, r2][..2] == [r1, r2];
    var m2 := Movies([r1, r2]);
    assert e in m2[f] && c !in m2[f];
    assert Movies([r1, r2, r2]) == m2[f := m2[f] + {c}];
    assert c in Movies([r1, r2, r2])[f];
  }

  /** After the single record (a, b, f), b holds the seed link (b, a) and
      the link (f, a): two links name a, and the first component of one is
      the actor b, so a scan of b's links for a may return an actor id. */
  lemma SeedLinkNamesActor(a: ActorId, b: ActorId, f: FilmId)
    requires a != b
    ensures b in Build([Record(a, b, f)]).moviesAndWhoWith
    ensures Build([Record(a, b, f)]).moviesAndWhoWith[b] == {(b, a), (f, a)}
  {
    var r := Record(a, b, f);
    assert [r][..0] == [];
    assert MoviesAndWhoWith([r]) == AddLinks(map[], r);
    AddLinksShape(map[], r);
  }

  lemma AddActorsTwice(a: ActorId, b: ActorId, c: ActorId, f: FilmId, g: FilmId)
    requires a != b && b != c && a != c
    ensures AddActors(AddActors(map[], Record(a, b, f)), Record(b, c, g)) ==
      map[a := {a, b}, b := {a, b, c}, c := {b, c}]
  {
    var adj0: map<ActorId, set<ActorId>> := map[];
    AddActorsShape(adj0, Record(a, b, f));
    var adj1 := AddActors(adj0, Record(a, b, f));
    assert adj1.Keys == {a, b} && adj1[a] == {a, b} && adj1[b] == {a, b};
    assert adj1 == map[a := {a, b}, b := {a, b}];
    AddActorsShape(adj1, Record(b, c, g));
    var adj2 := AddActors(adj1, Record(b, c, g));
    assert adj2.Keys == {a, b, c} && adj2[a] == {a, b} && adj2[b] == {a, b, c} && adj2[c] == {b, c};
  }

  lemma AddLinksTwice(a: ActorId, b: ActorId, c: ActorId, f: FilmId, g: FilmId)
    requires a != b && b != c && a != c
    ensures AddLinks(AddLinks(map[], Record(a, b, f)), Record(b, c, g)) ==
      map[a := {(f, a), (f, b)}, b := {(b, a), (f, a), (g, c)}, c := {(c, b), (g, b)}]
  {
    var links0: map<ActorId, set<Link>> := map[];
    AddLinksShape(links0, Record(a, b, f));
    var links1 := AddLinks(links0, Record(a, b, f));
    assert links1.Keys == {a, b} && links1[a] == {(f, a), (f, b)} && links1[b] == {(b, a), (f, a)};
    assert links1 == map[a := {(f, a), (f, b)}, b := {(b, a), (f, a)}];
    AddLinksShape(links1, Record(b, c, g));
    var links2 := AddLinks(links1, Record(b, c, g));
    assert links2.Keys == {a, b, c} && links2[a] == {(f, a), (f, b)}
      && links2[b] == {(b, a), (f, a), (g, c)} && links2[c] == {(c, b), (g, b)};
  }

  /** Two records (a, b, f) and (b, c, g) over three actors give the path
      a - b - c. */
  lemma TwoRecordsActors(a: ActorId, b: ActorId, c: ActorId, f: FilmId, g: FilmId)
    requires a != b && b != c && a != c
    ensures Build([Record(a, b, f), Record(b, c, g)]).actors == map[a := {a, b}, b := {a, b, c}, c := {b, c}]
  {
    var r1, r2 := Record(a, b, f), Record(b, c, g);
    assert [r1, r2][..1] == [r1] && [r1][..0] == [];
    assert ActedWith([r1]) == AddActors(map[], r1);
    assert ActedWith([r1, r2]) == AddActors(ActedWith([r1]), r2);
    AddActorsTwice(a, b, c, f, g);
  }

  /** The link sets of the same two records hold the source's seeds: (f, a)
      for a, and the actor-first pairs (b, a) and (c, b). */
  lemma TwoRecordsLinks(a: ActorId, b: ActorId, c: ActorId, f: FilmId, g: FilmId)
    requires a != b && b != c && a != c
    ensures Build([Record(a, b, f), Record(b, c, g)]).moviesAndWhoWith ==
      map[a := {(f, a), (f, b)}, b := {(b, a), (f, a), (g, c)}, c := {(c, b), (g, b)}]
  {
    var r1, r2 := Record(a, b, f), Record(b, c, g);
    assert [r1, r2][..1] == [r1] && [r1][..0] == [];
    assert MoviesAndWhoWith([r1]) == AddLinks(map[], r1);
    assert MoviesAndWhoWith([r1, r2]) == AddLinks(MoviesAndWhoWith([r1]), r2);
    AddLinksTwice(a, b, c, f, g);
  }

  /** Each of the two films has both actors of its one record. */
  lemma TwoRecordsMovies(a: ActorId, b: ActorId, c: ActorId, f: FilmId, g: FilmId)
    requires f != g
    ensures Build([Record(a, b, f), Record(b, c, g)]).movies == map[f := {a, b}, g := {b, c}]
  {
    var r1, r2 := Record(a, b, f), Record(b, c, g);
    assert [r1, r2][..1] == [r1] && [r1][..0] == [];
    var m1: map<FilmId, set<ActorId>> := map[f := {a, b}];
    assert Movies([r1]) == m1;
    assert Movies([r1, r2]) == AddFilm(m1, r2);
  }
}
