/**
 * The details page: display fallbacks, the meta line, the ratings list and
 * the four preference handlers. `Some(id)` stands for a loaded movie
 * record with that `imdbID`, `None` for none loaded yet.
 */
module MovieDetails {
  import opened Wrappers
  import opened Seqs
  import opened Text
  import opened MovieQuery
  import opened MoviePrefs

  const Dash := "—"

  /** A field worth showing: present, non-empty and not `'N/A'`. */
  predicate Shown(v: Option<string>)
  {
    v.Some? && v.value != "" && v.value != "N/A"
  }

  /** `safeText`, also the rule for the plot. */
  function SafeText(v: Option<string>): (r: string)
    ensures Shown(v) ==> r == v.value
    ensures !Shown(v) ==> r == Dash
    ensures r != ""
  {
    if Shown(v) then v.value else Dash
  }

  /** The value an optional string contributes to `filter(Boolean)`. */
  function Kept(v: Option<string>): seq<string>
  {
    if v.Some? && v.value != "" then [v.value] else []
  }

  /** `filter(Boolean)` over optional strings. */
  function Present(vs: seq<Option<string>>): (r: seq<string>)
    ensures |r| <= |vs|
    ensures forall k :: 0 <= k < |r| ==> r[k] != ""
  {
    if vs == [] then [] else Kept(vs[0]) + Present(vs[1..])
  }

  /** The filter keeps exactly the set values. */
  lemma {:induction false} PresentMembers(vs: seq<Option<string>>)
    ensures forall s :: s in Present(vs) <==> Some(s) in vs && s != ""
  {
    if vs != [] {
      PresentMembers(vs[1..]);
      assert vs == [vs[0]] + vs[1..];
    }
  }

  /** The filter keeps order and multiplicity: one value more at the end
      adds exactly that value, if it is set. */
  lemma {:induction false} PresentAppend(vs: seq<Option<string>>, v: Option<string>)
    ensures Present(vs + [v]) == Present(vs) + Kept(v)
  {
    if vs == [] {
      assert vs + [v] == [v];
      assert [v][1..] == [];
    } else {
      assert (vs + [v])[1..] == vs[1..] + [v];
      PresentAppend(vs[1..], v);
      ConcatAssoc(Kept(vs[0]), Present(vs[1..]), Kept(v));
    }
  }

  const MetaSeparator := " • "

  /** The meta line: year, rating, runtime and genre that are set, joined
      by `' • '`. */
  function Meta(year: Option<string>, rated: Option<string>, runtime: Option<string>,
                genre: Option<string>): (r: string)
    ensures Present([year, rated, runtime, genre]) == [] ==> r == ""
    ensures year.Some? && year.value != "" ==> StartsWith(r, year.value)
  {
    Join(Present([year, rated, runtime, genre]), MetaSeparator)
  }

  /** With every field set, the meta line lists all four in order. */
  lemma MetaAllSet(year: string, rated: string, runtime: string, genre: string)
    requires year != "" && rated != "" && runtime != "" && genre != ""
    ensures Meta(Some(year), Some(rated), Some(runtime), Some(genre))
      == year + MetaSeparator + rated + MetaSeparator + runtime + MetaSeparator + genre
  {
    var kept := [year, rated] + [runtime] + [genre];
    PresentFour(Some(year), Some(rated), Some(runtime), Some(genre));
    assert Kept(Some(year)) + Kept(Some(rated)) == [year, rated];
    assert Present([Some(year), Some(rated), Some(runtime), Some(genre)]) == kept;
    JoinThree([year, rated], runtime, genre);
    assert [year, rated][1..] == [rated];
    assert Join([year, rated], MetaSeparator) == year + MetaSeparator + rated;
  }

  /** A field that is missing or empty leaves no separator behind. */
  lemma MetaSkipsUnset(year: string, runtime: string, genre: string, rated: Option<string>)
    requires year != "" && runtime != "" && genre != ""
    requires rated.None? || rated == Some("")
    ensures Meta(Some(year), rated, Some(runtime), Some(genre)) == year + MetaSeparator + runtime + MetaSeparator + genre
  {
    var kept := [year] + [runtime] + [genre];
    PresentFour(Some(year), rated, Some(runtime), Some(genre));
    assert Kept(rated) == [];
    assert Kept(Some(year)) + Kept(rated) == [year];
    assert Present([Some(year), rated, Some(runtime), Some(genre)]) == kept;
    JoinThree([year], runtime, genre);
    assert Join([year], MetaSeparator) == year;
  }

  /** `Present` of the four meta fields, one field at a time. */
  lemma PresentFour(a: Option<string>, b: Option<string>, c: Option<string>, d: Option<string>)
    ensures Present([a, b, c, d]) == Kept(a) + Kept(b) + Kept(c) + Kept(d)
  {
    PresentCons(d, []);
    assert [d] + [] == [d];
    PresentCons(c, [d]);
    assert [c] + [d] == [c, d];
    PresentCons(b, [c, d]);
    assert [b] + [c, d] == [b, c, d];
    PresentCons(a, [b, c, d]);
    assert [a] + [b, c, d] == [a, b, c, d];
    ConcatAssoc(Kept(a), Kept(b), Kept(c) + Kept(d));
    ConcatAssoc(Kept(a) + Kept(b), Kept(c), Kept(d));
  }

  /** The first value contributes `Kept`, then the rest is filtered. */
  lemma PresentCons(v: Option<string>, vs: seq<Option<string>>)
    ensures Present([v] + vs) == Kept(v) + Present(vs)
  {
    assert ([v] + vs)[1..] == vs;
  }

  /** Joining two parts more after `parts`. */
  lemma JoinThree(parts: seq<string>, b: string, c: string)
    requires parts != []
    ensures Join(parts + [b] + [c], MetaSeparator) == Join(parts, MetaSeparator) + MetaSeparator + b + MetaSeparator + c
  {
    JoinAppend(parts, b, MetaSeparator);
    JoinAppend(parts + [b], c, MetaSeparator);
  }

  /** An entry of `Ratings`; a `null` entry has neither field. */
  datatype SourceRating = SourceRating(source: Option<string>, value: Option<string>)

  predicate Complete(e: SourceRating)
  {
    e.source.Some? && e.source.value != "" && e.value.Some? && e.value.value != ""
  }

  function SourceLine(e: SourceRating): string
    requires Complete(e)
  {
    e.source.value + ": " + e.value.value
  }

  /** The entries with both a source and a value, in order. */
  function SourceLines(es: seq<SourceRating>): (r: seq<string>)
    ensures |r| <= |es|
    ensures forall e :: e in es && Complete(e) ==> SourceLine(e) in r
    ensures forall l :: l in r ==> exists e :: e in es && Complete(e) && SourceLine(e) == l
    ensures forall k :: 0 <= k < |r| ==> |r[k]| > |Dash|
  {
    if es == [] then []
    else if Complete(es[0]) then [SourceLine(es[0])] + SourceLines(es[1..])
    else SourceLines(es[1..])
  }

  /** The loop visits the entries in order: one entry more at the end adds
      its line when it is complete, and nothing otherwise. */
  lemma {:induction false} SourceLinesAppend(es: seq<SourceRating>, e: SourceRating)
    ensures SourceLines(es + [e]) == SourceLines(es) + (if Complete(e) then [SourceLine(e)] else [])
  {
    if es == [] {
      assert es + [e] == [e];
    } else {
      assert (es + [e])[1..] == es[1..] + [e];
      SourceLinesAppend(es[1..], e);
    }
  }

  /** `IMDb: <rating>/10`, followed by ` (<votes> votes)` when the vote
      count is worth showing. */
  function ImdbLine(rating: string, votes: Option<string>): (r: string)
    ensures |r| > |Dash|
    ensures StartsWith(r, "IMDb: " + rating + "/10")
    ensures !Shown(votes) ==> r == "IMDb: " + rating + "/10"
    ensures Shown(votes) ==> r[|"IMDb: " + rating + "/10"|..] == " (" + votes.value + " votes)"
  {
    "IMDb: " + rating + "/10" + (if Shown(votes) then " (" + votes.value + " votes)" else "")
  }

  /** The external ratings list; `ratings` is `None` when `Ratings` is not
      an array. */
  function RatingsList(imdbRating: Option<string>, imdbVotes: Option<string>,
                       ratings: Option<seq<SourceRating>>): (r: seq<string>)
    ensures |r| >= 1
    ensures Shown(imdbRating) ==> r[0] == ImdbLine(imdbRating.value, imdbVotes)
    ensures var lines := SourceLines(ratings.GetOr([]));
      !Shown(imdbRating) && lines == [] <==> r == [Dash]
    ensures !Shown(imdbRating) && SourceLines(ratings.GetOr([])) != [] ==> r == SourceLines(ratings.GetOr([]))
    ensures Shown(imdbRating) ==> r[1..] == SourceLines(ratings.GetOr([]))
  {
    var first := if Shown(imdbRating) then [ImdbLine(imdbRating.value, imdbVotes)] else [];
    var items := first + SourceLines(ratings.GetOr([]));
    assert items != [] ==> |items[0]| > |Dash|;
    if items == [] then [Dash] else items
  }

  /** The query of the details page's `#load`. */
  function LoadQuery(apikey: Option<string>, defaultKey: string, imdb: Option<string>,
                     title: Option<string>, y: Option<string>): (r: Option<seq<Param>>)
    ensures r == LoadParams(apikey, defaultKey, imdb, title, y, true)
    ensures r.Some? ==> r.value[|r.value| - 1] == Param("plot", "full")
  {
    LoadParams(apikey, defaultKey, imdb, title, y, true)
  }

  /** What a preference button does to storage. */
  datatype HandlerResult = NotLoaded | Threw | Saved(prefs: Prefs)

  /** The four handlers as written: love and hate end in a call to
      `saveStore`, a name that is not defined in the module, so they stop
      with a `ReferenceError` before anything is saved; watched and
      watchlist save through `savePrefs`. */
  function ToggleAsWritten(movie: Option<string>, p: Prefs, l: List): (r: HandlerResult)
    ensures movie.None? <==> r == NotLoaded
    ensures movie.Some? && (l == Loved || l == Hated) ==> r == Threw
    ensures movie.Some? && (l == Watched || l == Watchlist) ==> r == Saved(Toggle(p, l, movie.value))
  {
    match movie
    case None => NotLoaded
    case Some(id) => if l == Loved || l == Hated then Threw else Saved(Toggle(p, l, id))
  }

  /** Love and hate on the details page never reach storage. */
  lemma LoveHateNotPersisted(id: string, p: Prefs)
    ensures ToggleAsWritten(Some(id), p, Loved) == Threw
    ensures ToggleAsWritten(Some(id), p, Hated) == Threw
    ensures ToggleAsWritten(Some(id), p, Loved) != Saved(Toggle(p, Loved, id))
  {
  }

  /** The handlers as intended: all four save the toggled record, as the
      movie card's handlers do. */
  function OnToggle(movie: Option<string>, p: Prefs, l: List): (r: HandlerResult)
    ensures movie.None? <==> r == NotLoaded
    ensures movie.Some? ==> r.Saved?
    ensures r.Saved? ==> r.prefs == Toggle(p, l, movie.value)
    ensures r.Saved? ==> var id := movie.value;
      && (id in Get(r.prefs, l) <==> id !in Get(p, l))
      && id !in Get(r.prefs, Partner(l))
      && (forall x :: x != id ==> (x in Get(r.prefs, l) <==> x in Get(p, l)))
      && r.prefs.ratings == p.ratings
  {
    match movie
    case None => NotLoaded
    case Some(id) => Saved(Toggle(p, l, id))
  }

  /** The intended handlers agree with the written ones wherever the
      written ones reach `savePrefs`. */
  lemma OnToggleMatchesWritten(movie: Option<string>, p: Prefs, l: List)
    requires ToggleAsWritten(movie, p, l) != Threw
    ensures OnToggle(movie, p, l) == ToggleAsWritten(movie, p, l)
  {
  }
}
