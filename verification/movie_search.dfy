/**
 * The search form: query validation, the inline error, the stored last
 * search, the `movie-search` event's detail, the one-time bootstrap from
 * storage and the year options. Form fields and attributes are `None` when
 * absent; the current year is a parameter.
 */
module MovieSearch {
  import opened Wrappers
  import opened Text

  const MinQuery := 3
  const DefaultQuery := "Batman"
  const FirstYear := 1900

  /** What is saved under `final-last-search`; absent fields are `''`. */
  datatype LastSearch = LastSearch(q: string, y: string, kind: string, sort: string)

  /** The event detail; an empty field is left `undefined` (`None`). */
  datatype Detail = Detail(q: string, y: Option<string>, kind: Option<string>, sort: Option<string>,
                           apikey: Option<string>)

  datatype SubmitOutcome = Rejected | Accepted(last: LastSearch, detail: Detail)

  /** `(fd.get(name) || '').toString().trim()`. */
  function Field(v: Option<string>): string { Trim(v.GetOr("")) }

  /** `value || undefined`. */
  function Defined(s: string): (r: Option<string>)
    ensures r.None? <==> s == ""
    ensures r.Some? ==> r.value == s
  {
    if s == "" then None else Some(s)
  }

  /** The query is long enough to search for; `length` counts UTF-16
      code units. */
  predicate ValidQuery(q: string)
  {
    Utf16Length(q) >= MinQuery
  }

  /** The input listener: the inline error is hidden while the trimmed
      query is empty or long enough. */
  function ErrorHidden(value: string): (hidden: bool)
    ensures hidden <==> Trim(value) == "" || Utf16Length(Trim(value)) >= MinQuery
  {
    var len := Utf16Length(Trim(value));
    len >= MinQuery || len == 0
  }

  /** `#onSubmit`: a short query is rejected, and then nothing is stored
      or dispatched. */
  function Submit(q: Option<string>, y: Option<string>, kind: Option<string>, sort: Option<string>,
                  apikey: Option<string>): (r: SubmitOutcome)
    ensures r.Rejected? <==> !ValidQuery(Field(q))
    ensures r.Accepted? ==> r.last == LastSearch(Field(q), Field(y), Field(kind), Field(sort))
    ensures r.Accepted? ==> r.detail.q == Field(q) && ValidQuery(r.detail.q)
    ensures r.Accepted? ==>
      && r.detail.y == Defined(Field(y)) && r.detail.kind == Defined(Field(kind))
      && r.detail.sort == Defined(Field(sort)) && r.detail.apikey == Defined(apikey.GetOr(""))
  {
    var query := Field(q);
    if query == "" || Utf16Length(query) < MinQuery then Rejected
    else
      var last := LastSearch(query, Field(y), Field(kind), Field(sort));
      Accepted(last, Detail(query, Defined(last.y), Defined(last.kind), Defined(last.sort),
                            Defined(apikey.GetOr(""))))
  }

  /** A submit goes through exactly when the inline error would be hidden
      for a non-blank query. */
  lemma SubmitAgreesWithError(q: Option<string>, y: Option<string>, kind: Option<string>,
                              sort: Option<string>, apikey: Option<string>)
    ensures Submit(q, y, kind, sort, apikey).Accepted? <==>
      ErrorHidden(q.GetOr("")) && Field(q) != ""
  {
  }

  /** Lengths are JavaScript lengths: two characters above U+FFFF make a
      valid query, one of them and a letter hide the inline error. */
  lemma AstralQueries()
    ensures Submit(Some("\U{1F600}\U{1F600}"), None, None, None, None).Accepted?
    ensures ErrorHidden("\U{1F600}a")
    ensures !ErrorHidden("ab")
  {
    assert Trim("\U{1F600}\U{1F600}") == "\U{1F600}\U{1F600}";
    assert Trim("\U{1F600}a") == "\U{1F600}a";
    assert Trim("ab") == "ab";
  }

  /** What `#bootstrapFromStorage` read; `None` for a missing or
      unparsable value, and for a missing field. */
  datatype Stored = Stored(q: Option<string>, y: Option<string>, kind: Option<string>, sort: Option<string>)

  /** The form values and the detail the bootstrap dispatches. */
  datatype Boot = Boot(form: LastSearch, detail: Detail)

  function Or(v: Option<string>): string { v.GetOr("") }

  /** `#bootstrapFromStorage`: returns whether it has run, and what it did
      this time. A stored query shorter than 3 UTF-16 code units is
      replaced by `'Batman'`. */
  function Bootstrap(done: bool, stored: Option<Stored>, apikey: Option<string>): (r: (bool, Option<Boot>))
    ensures r.0
    ensures done <==> r.1.None?
    ensures r.1.Some? ==> var f := r.1.value.form;
      && f.q == (if stored.Some? && stored.value.q.Some? && ValidQuery(stored.value.q.value)
                 then stored.value.q.value else DefaultQuery)
      && f.y == (if stored.Some? then Or(stored.value.y) else "")
      && f.kind == (if stored.Some? then Or(stored.value.kind) else "")
      && f.sort == (if stored.Some? then Or(stored.value.sort) else "")
    ensures r.1.Some? ==> var f := r.1.value.form;
      r.1.value.detail == Detail(f.q, Defined(f.y), Defined(f.kind), Defined(f.sort), Defined(apikey.GetOr("")))
  {
    if done then (true, None)
    else
      var q := if stored.Some? && stored.value.q.Some? && Utf16Length(stored.value.q.value) >= MinQuery
               then stored.value.q.value else DefaultQuery;
      var y := if stored.Some? then Or(stored.value.y) else "";
      var kind := if stored.Some? then Or(stored.value.kind) else "";
      var sort := if stored.Some? then Or(stored.value.sort) else "";
      (true, Some(Boot(LastSearch(q, y, kind, sort),
                       Detail(q, Defined(y), Defined(kind), Defined(sort), Defined(apikey.GetOr(""))))))
  }

  /** The bootstrap runs once per element. */
  lemma BootstrapOnce(stored: Option<Stored>, again: Option<Stored>, apikey: Option<string>)
    ensures Bootstrap(Bootstrap(false, stored, apikey).0, again, apikey).1.None?
  {
  }

  /** The bootstrap always searches for a valid query. */
  lemma BootstrapQueryValid(stored: Option<Stored>, apikey: Option<string>)
    ensures ValidQuery(Bootstrap(false, stored, apikey).1.value.detail.q)
  {
  }

  /** `JSON.parse(JSON.stringify(last))`. */
  function Reread(last: LastSearch): Stored
  {
    Stored(Some(last.q), Some(last.y), Some(last.kind), Some(last.sort))
  }

  /** Reloading the page repeats the last accepted search: the bootstrap
      dispatches the same detail the submit did. */
  lemma SubmitThenBootstrap(q: Option<string>, y: Option<string>, kind: Option<string>,
                            sort: Option<string>, apikey: Option<string>)
    requires Submit(q, y, kind, sort, apikey).Accepted?
    ensures var s := Submit(q, y, kind, sort, apikey);
      Bootstrap(false, Some(Reread(s.last)), apikey).1.value.detail == s.detail
  {
  }

  /** `#populateYears`: the years appended to the select, from `current`
      down to 1900; nothing when the select already holds more than its
      "Any" option. */
  method PopulateYears(current: int, optionCount: nat) returns (years: seq<int>)
    ensures optionCount > 1 ==> years == []
    ensures optionCount <= 1 ==> |years| == (if current >= FirstYear then current - FirstYear + 1 else 0)
    ensures optionCount <= 1 ==> forall k :: 0 <= k < |years| ==> years[k] == current - k
  {
    years := [];
    if optionCount > 1 {
      return;
    }
    var y := current;
    while y >= FirstYear
      invariant y <= current
      invariant current >= FirstYear ==> y >= FirstYear - 1
      invariant current < FirstYear ==> y == current
      invariant |years| == current - y
      invariant forall k :: 0 <= k < |years| ==> years[k] == current - k
      decreases y
    {
      years := years + [y];
      y := y - 1;
    }
  }

  /** The year options are strictly descending and all in range. */
  lemma YearsDescending(current: int, years: seq<int>)
    requires forall k :: 0 <= k < |years| ==> years[k] == current - k
    requires |years| == (if current >= FirstYear then current - FirstYear + 1 else 0)
    ensures forall i, j :: 0 <= i < j < |years| ==> years[i] > years[j]
    ensures forall k :: 0 <= k < |years| ==> FirstYear <= years[k] <= current
    ensures |years| > 0 ==> years[0] == current && years[|years| - 1] == FirstYear
  {
  }
}
