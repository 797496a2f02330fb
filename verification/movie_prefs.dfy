/**
 * The movie preference record kept under `final-movie-prefs` and the paired
 * toggles the movie card and the details page apply to it: loved/hated and
 * watched/watchlist, each toggle clearing the id from its partner list.
 * A list that is missing from the stored record reads as empty.
 */
module MoviePrefs {
  import opened Wrappers
  import opened Text

  /** What `loadPrefs` returns; a missing or falsy field is `None`. */
  datatype Prefs = Prefs(loved: Option<seq<string>>, hated: Option<seq<string>>,
                         watched: Option<seq<string>>, watchlist: Option<seq<string>>,
                         ratings: Option<map<string, real>>)

  /** `loadPrefs` on a missing or unparsable value: `{}`. */
  const EmptyPrefs := Prefs(None, None, None, None, None)

  datatype List = Loved | Hated | Watched | Watchlist

  /** The list a toggle of `l` clears. */
  function Partner(l: List): (m: List)
    ensures m != l
  {
    match l
    case Loved => Hated
    case Hated => Loved
    case Watched => Watchlist
    case Watchlist => Watched
  }

  lemma PartnerInvolutive(l: List)
    ensures Partner(Partner(l)) == l
  {
  }

  /** `store.<list> || []`. */
  function Get(p: Prefs, l: List): seq<string>
  {
    match l
    case Loved => p.loved.GetOr([])
    case Hated => p.hated.GetOr([])
    case Watched => p.watched.GetOr([])
    case Watchlist => p.watchlist.GetOr([])
  }

  function Put(p: Prefs, l: List, xs: seq<string>): (r: Prefs)
    ensures Get(r, l) == xs
    ensures forall m :: m != l ==> Get(r, m) == Get(p, m)
    ensures r.ratings == p.ratings
  {
    match l
    case Loved => p.(loved := Some(xs))
    case Hated => p.(hated := Some(xs))
    case Watched => p.(watched := Some(xs))
    case Watchlist => p.(watchlist := Some(xs))
  }

  /** `xs.filter((x) => x !== id)`. */
  function Without(xs: seq<string>, id: string): (r: seq<string>)
    ensures forall x :: x in r <==> x in xs && x != id
    ensures |r| <= |xs|
  {
    if xs == [] then []
    else if xs[0] == id then Without(xs[1..], id)
    else [xs[0]] + Without(xs[1..], id)
  }

  /** `filter` keeps order and multiplicity: one id more at the end is
      kept exactly when it is not the removed one. */
  lemma {:induction false} WithoutAppend(xs: seq<string>, x: string, id: string)
    ensures Without(xs + [x], id) == Without(xs, id) + (if x == id then [] else [x])
  {
    if xs == [] {
      assert xs + [x] == [x];
      assert [x][1..] == [];
    } else {
      assert (xs + [x])[1..] == xs[1..] + [x];
      WithoutAppend(xs[1..], x, id);
      if xs[0] != id {
        assert [xs[0]] + (Without(xs[1..], id) + (if x == id then [] else [x]))
          == [xs[0]] + Without(xs[1..], id) + (if x == id then [] else [x]);
      }
    }
  }

  lemma {:induction false} WithoutAbsent(xs: seq<string>, id: string)
    requires id !in xs
    ensures Without(xs, id) == xs
  {
    if xs != [] {
      WithoutAbsent(xs[1..], id);
      assert xs == [xs[0]] + xs[1..];
    }
  }

  /** Push `id` when absent, otherwise drop every copy of it. */
  function Flip(xs: seq<string>, id: string): (r: seq<string>)
    ensures id in r <==> id !in xs
    ensures forall x :: x != id ==> (x in r <==> x in xs)
    ensures id !in xs ==> r == xs + [id]
  {
    if id !in xs then xs + [id] else Without(xs, id)
  }

  /** The toggle of list `l` for `id`: its membership flips, the partner
      list loses `id`, and both lists are now present in the record. */
  function Toggle(p: Prefs, l: List, id: string): (r: Prefs)
    ensures id in Get(r, l) <==> id !in Get(p, l)
    ensures id !in Get(r, Partner(l))
    ensures forall x :: x != id ==> (x in Get(r, l) <==> x in Get(p, l))
    ensures forall x :: x != id ==> (x in Get(r, Partner(l)) <==> x in Get(p, Partner(l)))
    ensures forall m :: m != l && m != Partner(l) ==> Get(r, m) == Get(p, m)
    ensures r.ratings == p.ratings
  {
    var own := Flip(Get(p, l), id);
    var other := Without(Get(p, Partner(l)), id);
    Put(Put(p, l, own), Partner(l), other)
  }

  /** No id is both loved and hated, or both watched and on the
      watchlist. */
  ghost predicate Exclusive(p: Prefs)
  {
    && (forall x :: !(x in Get(p, Loved) && x in Get(p, Hated)))
    && (forall x :: !(x in Get(p, Watched) && x in Get(p, Watchlist)))
  }

  /** Toggling keeps both pairs exclusive. */
  lemma ToggleKeepsExclusive(p: Prefs, l: List, id: string)
    requires Exclusive(p)
    ensures Exclusive(Toggle(p, l, id))
  {
    var r := Toggle(p, l, id);
    forall x
      ensures !(x in Get(r, l) && x in Get(r, Partner(l)))
    {
      if x != id {
        assert l == Loved ==> !(x in Get(p, Loved) && x in Get(p, Hated));
        assert l == Hated ==> !(x in Get(p, Loved) && x in Get(p, Hated));
        assert l == Watched ==> !(x in Get(p, Watched) && x in Get(p, Watchlist));
        assert l == Watchlist ==> !(x in Get(p, Watched) && x in Get(p, Watchlist));
      }
    }
  }

  /** Toggling an id on and off again gives the list back. */
  lemma ToggleTwice(p: Prefs, l: List, id: string)
    requires id !in Get(p, l)
    ensures Get(Toggle(Toggle(p, l, id), l, id), l) == Get(p, l)
  {
    WithoutAppend(Get(p, l), id, id);
    WithoutAbsent(Get(p, l), id);
  }

  /** The outcome of the details page's save-rating button. */
  datatype RatingOutcome = NoMovie | Blank | OutOfRange | Rated(prefs: Prefs)

  /** `#onSave`: `movie` is the loaded movie's id (`None` before a movie
      is loaded), `input` the field's text and `num` what `Number` makes of
      the trimmed text (`None` for NaN). */
  function SaveRating(movie: Option<string>, input: string, num: Option<real>, p: Prefs): (r: RatingOutcome)
    ensures movie.None? <==> r == NoMovie
    ensures movie.Some? && Trim(input) == "" <==> r == Blank
    ensures r == OutOfRange <==> movie.Some? && Trim(input) != "" && !(num.Some? && 1.0 <= num.value <= 10.0)
    ensures r.Rated? ==> num.Some? && 1.0 <= num.value <= 10.0
    ensures r.Rated? ==> r.prefs == p.(ratings := Some(p.ratings.GetOr(map[])[movie.value := num.value]))
  {
    match movie
    case None => NoMovie
    case Some(id) =>
      if Trim(input) == "" then Blank
      else if !(num.Some? && 1.0 <= num.value <= 10.0) then OutOfRange
      else Rated(p.(ratings := Some(p.ratings.GetOr(map[])[id := num.value])))
  }

  /** A stored rating changes no list and no other movie's rating. */
  lemma SaveRatingKeepsRest(movie: string, input: string, num: Option<real>, p: Prefs)
    requires SaveRating(Some(movie), input, num, p).Rated?
    ensures var q := SaveRating(Some(movie), input, num, p).prefs;
      && (forall l :: Get(q, l) == Get(p, l))
      && q.ratings.Some? && q.ratings.value[movie] == num.value
      && (forall other :: other != movie ==>
            (other in q.ratings.value <==> p.ratings.Some? && other in p.ratings.value))
  {
  }
}
