/**
 * Query strings of the movie components, built with `URLSearchParams`:
 * parameters in insertion order, `name=value` joined by `&`. Values are
 * taken to need no percent-encoding.
 */
module MovieQuery {
  import opened Wrappers
  import opened Seqs
  import opened Text

  datatype Param = Param(name: string, value: string)

  function Pair(p: Param): string { p.name + "=" + p.value }

  /** `params.toString()`: empty exactly when there are no parameters. */
  function Serialize(ps: seq<Param>): (r: string)
    ensures r == "" <==> ps == []
  {
    var parts := Map(Pair, ps);
    assert ps != [] ==> StartsWith(Join(parts, "&"), parts[0]);
    Join(parts, "&")
  }

  /** One parameter alone is its `name=value` pair; one more parameter
      adds `&` and its pair, so the pairs appear in insertion order. */
  lemma SerializeAppend(ps: seq<Param>, p: Param)
    ensures Serialize([p]) == p.name + "=" + p.value
    ensures ps != [] ==> Serialize(ps + [p]) == Serialize(ps) + "&" + p.name + "=" + p.value
  {
    assert Map(Pair, [p]) == [Pair(p)];
    if ps != [] {
      MapAppend(Pair, ps, [p]);
      JoinAppend(Map(Pair, ps), Pair(p), "&");
    }
  }

  /** The value of an attribute as the components read it: a missing
      attribute counts as the empty string. */
  function Attr(a: Option<string>): string { a.GetOr("") }

  /** `apikey`, then the id or title parameter, then `y` when set, then
      `plot=full` when asked for. */
  function Query(key: string, which: Param, y: string, full: bool): (r: seq<Param>)
    ensures |r| == 2 + (if y != "" then 1 else 0) + (if full then 1 else 0)
    ensures r[0] == Param("apikey", key) && r[1] == which
    ensures y != "" ==> r[2] == Param("y", y)
    ensures full ==> r[|r| - 1] == Param("plot", "full")
  {
    var year := if y != "" then [Param("y", y)] else [];
    var plot := if full then [Param("plot", "full")] else [];
    [Param("apikey", key), which] + year + plot
  }

  /** The query of `#load` on the card (`full` false) and on the details
      page (`full` true): nothing is fetched when both the trimmed imdb id
      and the trimmed title are empty; the id wins over the title; `y` is
      sent only when set. */
  function LoadParams(apikey: Option<string>, defaultKey: string, imdb: Option<string>,
                      title: Option<string>, y: Option<string>, full: bool): (r: Option<seq<Param>>)
    ensures r.None? <==> Trim(Attr(imdb)) == "" && Trim(Attr(title)) == ""
    ensures r.Some? ==> |r.value| == 2 + (if Attr(y) != "" then 1 else 0) + (if full then 1 else 0)
    ensures r.Some? ==> r.value[0] == Param("apikey", Trim(if Attr(apikey) != "" then Attr(apikey) else defaultKey))
    ensures r.Some? && Trim(Attr(imdb)) != "" ==> r.value[1] == Param("i", Trim(Attr(imdb)))
    ensures r.Some? && Trim(Attr(imdb)) == "" ==> r.value[1] == Param("t", Trim(Attr(title)))
    ensures r.Some? && Attr(y) != "" ==> r.value[2] == Param("y", Attr(y))
    ensures r.Some? && full ==> r.value[|r.value| - 1] == Param("plot", "full")
  {
    var id := Trim(Attr(imdb));
    var t := Trim(Attr(title));
    if id == "" && t == "" then None
    else
      var key := Trim(if Attr(apikey) != "" then Attr(apikey) else defaultKey);
      var which := if id != "" then Param("i", id) else Param("t", t);
      Some(Query(key, which, Attr(y), full))
  }
}
