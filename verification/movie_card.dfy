/**
 * The movie card: what it keeps of a fetched movie, the link to the details
 * page, the preference buttons' state and their toggle handlers. Attributes
 * are `None` when absent; the fetch is reduced to its outcome.
 */
module MovieCard {
  import opened Wrappers
  import opened Text
  import opened MovieQuery
  import opened MoviePrefs

  /** The card's `#data`. */
  datatype CardData = CardData(title: string, year: string, poster: string, imdbID: string)

  /** The fields of an OMDb answer the card reads; `None` is missing. */
  datatype MovieJson = MovieJson(response: Option<string>, title: Option<string>, year: Option<string>,
                                 poster: Option<string>, imdbID: Option<string>)

  /** A non-OK status or a network failure, or the parsed body. */
  datatype FetchOutcome = FetchFailed | Fetched(json: MovieJson)

  /** A poster that is missing, empty or `'N/A'` is none. */
  function PosterOf(p: Option<string>): (r: string)
    ensures p.None? || p.value == "N/A" ==> r == ""
    ensures p.Some? && p.value != "N/A" ==> r == p.value
  {
    if p.Some? && p.value != "" && p.value != "N/A" then p.value else ""
  }

  /** The answer counts as a movie unless OMDb said `Response: "False"`. */
  predicate Found(o: FetchOutcome)
  {
    o.Fetched? && o.json.response != Some("False")
  }

  /** `#load`: `None` when neither an id nor a title is set (nothing is
      fetched and the data stays as it was); otherwise the data after the
      fetch, falling back on an error to the title attribute, else the id,
      with no year and no poster. The id of a failed load is kept. */
  function Load(prev: CardData, imdb: Option<string>, title: Option<string>, outcome: FetchOutcome): (r: Option<CardData>)
    ensures r.None? <==> Trim(Attr(imdb)) == "" && Trim(Attr(title)) == ""
    ensures r.Some? && Found(outcome) ==>
      && r.value.title == outcome.json.title.GetOr("")
      && r.value.year == outcome.json.year.GetOr("")
      && r.value.poster == PosterOf(outcome.json.poster)
      && r.value.imdbID == outcome.json.imdbID.GetOr("")
    ensures r.Some? && !Found(outcome) ==>
      && r.value.title == (if Trim(Attr(title)) != "" then Trim(Attr(title)) else Trim(Attr(imdb)))
      && r.value.year == "" && r.value.poster == ""
      && r.value.imdbID == prev.imdbID
  {
    var id := Trim(Attr(imdb));
    var t := Trim(Attr(title));
    if id == "" && t == "" then None
    else if Found(outcome) then
      var j := outcome.json;
      Some(CardData(j.title.GetOr(""), j.year.GetOr(""), PosterOf(j.poster), j.imdbID.GetOr("")))
    else
      Some(prev.(title := if t != "" then t else id, year := "", poster := ""))
  }

  /** The parameters of the details link built in `#render`. */
  function DetailsParams(apikey: Option<string>, imdb: Option<string>, dataId: string,
                         title: Option<string>, y: Option<string>): (r: seq<Param>)
    ensures |r| <= 3
    ensures var key := Trim(Attr(apikey));
      var id := if Trim(Attr(imdb)) != "" then Trim(Attr(imdb)) else dataId;
      && (key != "" <==> |r| > 0 && r[0] == Param("apikey", key))
      && (id != "" ==> |r| == (if key != "" then 2 else 1) && r[|r| - 1] == Param("imdb", id))
      && (id == "" && Attr(title) == "" ==> |r| == (if key != "" then 1 else 0))
      && (id == "" && Attr(title) != "" ==>
            && |r| == (if key != "" then 1 else 0) + (if Attr(y) != "" then 2 else 1)
            && r[if key != "" then 1 else 0] == Param("title", Attr(title))
            && (Attr(y) != "" ==> r[|r| - 1] == Param("y", Attr(y))))
  {
    var key := Trim(Attr(apikey));
    var id := if Trim(Attr(imdb)) != "" then Trim(Attr(imdb)) else dataId;
    var keyPart := if key != "" then [Param("apikey", key)] else [];
    var rest :=
      if id != "" then [Param("imdb", id)]
      else if Attr(title) != "" then [Param("title", Attr(title))] + (if Attr(y) != "" then [Param("y", Attr(y))] else [])
      else [];
    keyPart + rest
  }

  const DetailsPage := "./details.html"

  /** The link itself: a `?` only when there is some parameter. */
  function DetailsHref(ps: seq<Param>): (r: string)
    ensures ps == [] ==> r == DetailsPage
    ensures ps != [] ==> r == DetailsPage + "?" + Serialize(ps)
  {
    var q := Serialize(ps);
    DetailsPage + (if q != "" then "?" + q else "")
  }

  /** A card with no key, no id and no title links to the bare page. */
  lemma BareDetailsLink(y: Option<string>)
    ensures DetailsHref(DetailsParams(None, None, "", None, y)) == DetailsPage
  {
    assert Trim("") == "";
  }

  /** What `#updatePrefsUI` shows: which buttons are active and the user's
      rating, which is shown exactly when one is stored. */
  datatype PrefsView = PrefsView(loved: bool, hated: bool, watched: bool, watchlist: bool,
                                 rating: Option<real>)

  /** The id the buttons refer to: the loaded one, else the attribute. */
  function ViewId(dataId: string, imdb: Option<string>): string
  {
    if dataId != "" then dataId else Trim(Attr(imdb))
  }

  /** `None` when there is no id, and nothing is updated. */
  function View(p: Prefs, dataId: string, imdb: Option<string>): (r: Option<PrefsView>)
    ensures r.None? <==> ViewId(dataId, imdb) == ""
    ensures r.Some? ==> var id := ViewId(dataId, imdb);
      && (r.value.loved <==> id in Get(p, Loved))
      && (r.value.hated <==> id in Get(p, Hated))
      && (r.value.watched <==> id in Get(p, Watched))
      && (r.value.watchlist <==> id in Get(p, Watchlist))
      && (r.value.rating.Some? <==> p.ratings.Some? && id in p.ratings.value)
      && (r.value.rating.Some? ==> r.value.rating.value == p.ratings.value[id])
  {
    var id := ViewId(dataId, imdb);
    if id == "" then None
    else
      var ratings := p.ratings.GetOr(map[]);
      Some(PrefsView(id in Get(p, Loved), id in Get(p, Hated), id in Get(p, Watched), id in Get(p, Watchlist),
                     if id in ratings then Some(ratings[id]) else None))
  }

  function Active(v: PrefsView, l: List): bool
  {
    match l
    case Loved => v.loved
    case Hated => v.hated
    case Watched => v.watched
    case Watchlist => v.watchlist
  }

  /** The card's four button handlers: `None` (nothing saved) while no
      movie id is loaded, else the record that is saved. */
  function OnToggle(p: Prefs, dataId: string, l: List): (r: Option<Prefs>)
    ensures dataId == "" <==> r.None?
    ensures r.Some? ==> r.value == Toggle(p, l, dataId)
  {
    if dataId == "" then None else Some(Toggle(p, l, dataId))
  }

  /** After a toggle the card shows the pressed button flipped, its
      partner off, the other pair and the rating as before. */
  lemma ToggleThenView(p: Prefs, dataId: string, imdb: Option<string>, l: List)
    requires dataId != ""
    ensures var before := View(p, dataId, imdb).value;
      var after := View(OnToggle(p, dataId, l).value, dataId, imdb).value;
      && Active(after, l) == !Active(before, l)
      && !Active(after, Partner(l))
      && (forall m :: m != l && m != Partner(l) ==> Active(after, m) == Active(before, m))
      && after.rating == before.rating
  {
  }
}
