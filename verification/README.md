# piu-labs, state logic in Dafny

This project models the state rules of the piu-labs web exercises. DOM, network, timers and storage are stripped away. Every operation is written as a pure function on immutable values, and the properties the code promises are proved about them.

- **Kanban board** (lab 4). There are three fixed, ordered columns `todo`, `doing` and `done`, plus one sort-direction flag per column.
  - Cards are added, moved one column left or right, deleted, recoloured one at a time or a column at a time, renamed, and re-sorted by title.
  - The board is saved and loaded as a document.
  - Proved: a move keeps every card and every id count. Sorting is a stable permutation, and re-sorting a sorted column changes nothing. Ids stay unique. Save then load gives the board back.
  - Modules `Kanban` and `KanbanStorage`.
- **Shape store with publish/subscribe** (lab 5).
  - Shapes are added, removed and recoloured by type, with per-type counts.
  - Subscribers of a topic are told about each change in registration order, after the list has been saved.
  - The saved projection and the load filter round-trip.
  - Module `ShapeStore`.
- **Shopping cart** (lab 7).
  - Lines are merged by (key, price), and the per-index increment, decrement and remove are bounds-checked.
  - Proved: the total moves by exactly the price, and every line stays distinct with a positive quantity.
  - Module `Cart`.
- **HTTP client helpers** (lab 6): configuration setters, option merging, URL joining, the Content-Type rule, response classification and the error-body preview. Module `Ajax`.
- **Movie components** (final project).
  - The paired, mutually exclusive preference toggles (loved/hated, watched/watchlist) and rating validation.
  - Query-parameter selection, the details link, the display fallbacks, the ratings list.
  - Search-form validation, the one-time bootstrap from the stored last search, and the year options.
  - Modules `MoviePrefs`, `MovieQuery`, `MovieCard`, `MovieDetails` and `MovieSearch`.

Shared helpers:
- `Wrappers.Option`.
- `Text`: JavaScript `trim`, ASCII lower-casing, code-point order, `join`, `includes`, and `length`/`slice` counted in UTF-16 code units.
- `Seqs`: `map`, `splice`, and multiset facts.

## Model

| member | source | states |
|---|---|---|
| Text.Trim | final-project/components/movie-search.js:91 | `trim` removes exactly the leading and trailing white space; the result neither starts nor ends with white space |
| Text.TrimIdempotent | final-project/components/movie-search.js:91 | trimming a trimmed string changes nothing |
| Text.Join | final-project/components/movie-details.js:201 | joining no parts gives `''`, one part gives that part, and the result starts with the first part |
| Text.JoinAppend | final-project/components/movie-details.js:201 | joining one part more adds the separator and that part, so the parts appear in order with the separator between neighbours |
| Text.Utf16Length | final-project/components/movie-search.js:67 | JavaScript `length`: each character above U+FFFF counts two code units, every other one; zero exactly for the empty string |
| Text.Utf16LengthAppend | final-project/components/movie-search.js:67 | the length of a concatenation is the sum of the lengths |
| Text.Utf16LengthBasic | final-project/components/movie-search.js:67 | without characters above U+FFFF the length is the number of characters |
| Text.Utf16Prefix | lab-6/js/ajax.js:119 | `slice(0, n)`: the longest prefix of at most `n` code units; the whole string exactly when it fits |
| Kanban.ParseColumn | lab-4/js/kanban.js:3-7 | only `todo`, `doing` and `done` name a column; every other string names none (the operations would throw on it) |
| Kanban.Neighbour | lab-4/js/kanban.js:213-226 | there is no target left of `todo` or right of `done`; otherwise the target is the adjacent column in `['todo','doing','done']` |
| Kanban.ApplySort | lab-4/js/kanban.js:309-316 | the column comes out ordered by title in the flag's direction, as a permutation of its cards |
| Kanban.InsertSorted | lab-4/js/kanban.js:311-314 | inserting a card into a column sorted in the flag's direction keeps it sorted |
| Kanban.SortedTitlesUnique | lab-4/js/kanban.js:309-316 | two orderings of the same titles, both sorted in one direction, are the same list, so the sorted order of titles is determined |
| Kanban.InsertStable | lab-4/js/kanban.js:311-314 | inserting a card into a sorted column puts it after every card of its own title and keeps those cards' order |
| Kanban.SortStable | lab-4/js/kanban.js:309-316 | sorting is stable: for every title, the cards with that title keep their relative order |
| Kanban.SortSorted | lab-4/js/kanban.js:309-316 | sorting a column already sorted in that direction leaves it exactly as it was |
| Text.LexLeTotal | lab-4/js/kanban.js:313-314 | the comparison the sort uses relates any two titles one way or the other |
| Text.LexLeTransitive | lab-4/js/kanban.js:313-314 | the comparison is transitive |
| Text.LexLeAntisymmetric | lab-4/js/kanban.js:313-314 | two titles that compare both ways are equal |
| Kanban.Locate | lab-4/js/kanban.js:251-262 | finds the first card with the id, scanning the columns in order, and is absent exactly when the id is on no card |
| Kanban.FindCard | lab-4/js/kanban.js:173-179 | returns a card carrying the id, and none exactly when no card has it |
| Kanban.NewCard | lab-4/js/kanban.js:199-206 | a new card has the fresh id, title `'Nowa karta'`, the generated colour and only the enter marker |
| Kanban.AddCard | lab-4/js/kanban.js:198-211 | the target column gains exactly the new card and is re-sorted in its direction; other columns and all flags are unchanged |
| Kanban.AddCardContent | lab-4/js/kanban.js:198-208 | the board's cards grow by exactly the new card, so the total grows by one |
| Kanban.AddCardIds | lab-4/js/kanban.js:198-208 | the fresh id then occurs once, no other id's count changes, and unique ids stay unique |
| Kanban.WithMove | lab-4/js/kanban.js:229-230 | a moved card keeps id, title and colour and records the direction |
| Kanban.MoveCard | lab-4/js/kanban.js:213-232 | an unknown id, or a move off either end, changes nothing; otherwise the card leaves its column at its index and the re-sorted target gains it; the third column and the flags are unchanged |
| Kanban.MoveCardContent | lab-4/js/kanban.js:226-232 | a move keeps the total number of cards and the multiset of cards, ignoring markers |
| Kanban.MoveCardIds | lab-4/js/kanban.js:226-232 | a move keeps every id's count, so unique ids stay unique |
| Kanban.DeleteCard | lab-4/js/kanban.js:251-270 | an unknown id changes nothing; otherwise exactly the first card with the id goes, and the rest of its column keeps its order |
| Kanban.DeleteCardContent | lab-4/js/kanban.js:263-270 | the card removed is the one `findCard` returns, and the board has one card fewer |
| Kanban.DeleteCardIds | lab-4/js/kanban.js:263-270 | the id's count falls by one and no other id's count changes; with unique ids the id is then gone |
| Kanban.RecolorCard | lab-4/js/kanban.js:284-292 | only the colour and recolour marker of the first card with the id change; ids, titles and order stay; an unknown id changes nothing |
| Kanban.ColorAll | lab-4/js/kanban.js:294-301 | every card of the column takes its new colour and the recolour marker; ids, titles, order and the other columns stay |
| Kanban.ToggleSort | lab-4/js/kanban.js:303-316 | the column's flag is negated (a missing one becomes true), no other flag changes, and the column becomes a permutation sorted in the new direction |
| Kanban.ToggleSortContent | lab-4/js/kanban.js:303-305 | toggling keeps the cards on the board |
| Kanban.ToggleSortIds | lab-4/js/kanban.js:303-305 | toggling keeps every id's count |
| Kanban.ToggleSortTwice | lab-4/js/kanban.js:303-316 | toggling twice restores the flag and the column's cards; a column already sorted in its direction gets its titles back in the same order |
| Kanban.RenameCard | lab-4/js/kanban.js:154-160 | the first card with the id takes the trimmed text as its title in place; nothing else moves or re-sorts; an unknown id changes nothing |
| Kanban.RenameCardIds | lab-4/js/kanban.js:154-160 | renaming keeps every id's count and unique ids |
| Kanban.Settle | lab-4/js/kanban.js:109-125 | rendering clears the enter, move and recolour markers and nothing else of the card |
| Kanban.Render | lab-4/js/kanban.js:101-131 | render settles every card in place and keeps the flags |
| Kanban.RenderKeepsContent | lab-4/js/kanban.js:109-125 | rendering keeps the cards and every id's count |
| Kanban.RenderIdempotent | lab-4/js/kanban.js:109-125 | a second render changes nothing more |
| KanbanStorage.StoreCard | lab-4/js/kanban.js:43-49 | a stored card keeps exactly id, title and colour |
| KanbanStorage.Save | lab-4/js/kanban.js:50-60 | the document holds exactly the three column keys, each card in order without markers, and the flags as they are |
| KanbanStorage.StripAll | lab-4/js/kanban.js:50-55 | saving also clears the markers of the cards in memory |
| KanbanStorage.Entering | lab-4/js/kanban.js:31-34 | a loaded card keeps the stored fields and is marked as entering |
| KanbanStorage.LoadColumn | lab-4/js/kanban.js:29-35 | a column is replaced only when the document holds an array under its key |
| KanbanStorage.Load | lab-4/js/kanban.js:23-42 | a missing or unparsable document, or one without `columns`, leaves the board as it is; the flags are replaced wholesale only when present |
| KanbanStorage.LoadIgnoresOtherKeys | lab-4/js/kanban.js:29-35 | keys other than the three column names do not affect loading |
| KanbanStorage.SaveLoadRoundTrip | lab-4/js/kanban.js:23-60 | loading a saved board gives back its cards up to markers, every loaded card marked as entering |
| ShapeStore.Matching | lab-5/js/store.js:48-49 | the shapes of the type, in order |
| ShapeStore.MatchingMembers | lab-5/js/store.js:48-49 | a shape is selected exactly when it is in the list and has the type |
| ShapeStore.GetCounts | lab-5/js/store.js:24-32 | squares and circles are counted exactly, other types nowhere, so their sum is at most the number of shapes |
| ShapeStore.Value | lab-5/js/store.js:17 | the payload's value is the shape list for `shapes`, and undefined for any other own topic name |
| ShapeStore.AddCallback | lab-5/js/store.js:15 | a callback is appended unless present, so a topic's callbacks stay distinct |
| ShapeStore.RemoveCallback | lab-5/js/store.js:21 | exactly that callback goes, the others stay, and they stay distinct |
| ShapeStore.RemoveCallbackAppend | lab-5/js/store.js:21 | deletion acts on each callback separately, so the survivors keep their order on either side of any split |
| ShapeStore.RemoveCallbackAt | lab-5/js/store.js:21 | in a distinct list, deleting a callback is removing it at its position, with the rest in place |
| ShapeStore.RemoveAfterAdd | lab-5/js/store.js:15-21 | removing a callback just added gives the list back |
| ShapeStore.Subscribe | lab-5/js/store.js:11-21 | registers the callback under its topic and delivers one `init` payload to it at once, with the current value and counts |
| ShapeStore.Unsubscribe | lab-5/js/store.js:21 | the returned function removes exactly that callback from that topic |
| ShapeStore.UnsubscribeKeepsOrder | lab-5/js/store.js:21 | after an unsubscribe the remaining callbacks keep the registration order in which notifications go out |
| ShapeStore.SubscribeUnsubscribe | lab-5/js/store.js:11-21 | subscribing a new callback and unsubscribing it leaves every topic's callbacks as they were |
| ShapeStore.Notify | lab-5/js/store.js:63-72 | nothing for a topic without subscribers; otherwise one delivery per callback, in registration order, all with the same payload |
| ShapeStore.SaveShapes | lab-5/js/store.js:79-90 | the save projects each shape to id, type and colour, in order |
| ShapeStore.PersistAndNotify | lab-5/js/store.js:74-77 | the save comes before every delivery |
| ShapeStore.AddShape | lab-5/js/store.js:34-37 | the shape is appended at the end and announced as `add` after the save |
| ShapeStore.AddShapeCounts | lab-5/js/store.js:24-37 | adding a shape raises only its type's count, by one |
| ShapeStore.FirstWithId | lab-5/js/store.js:40 | the index of the first shape with the id, none exactly when no shape has it |
| ShapeStore.RemoveShape | lab-5/js/store.js:39-44 | an unknown id changes nothing and emits nothing; otherwise the first shape with the id goes, announced as `remove` after the save |
| ShapeStore.Recolor | lab-5/js/store.js:46-53 | only shapes of the type change colour, and ids, types and order are kept |
| ShapeStore.RecolorColors | lab-5/js/store.js:48-52 | the shapes of the type take the generated colours, in list order |
| ShapeStore.RecolorIds | lab-5/js/store.js:48-52 | the recoloured shapes are the same shapes, in the same order |
| ShapeStore.RecolorUpdated | lab-5/js/store.js:48-52 | `updated` names exactly the ids of the shapes of the type, in list order |
| ShapeStore.RecolorType | lab-5/js/store.js:46-61 | shapes of other types are untouched; nothing is saved or delivered when no shape has the type |
| ShapeStore.RecolorNoneMatching | lab-5/js/store.js:54 | with no shape of the type, the list is unchanged |
| ShapeStore.LoadFilter | lab-5/js/store.js:98-103 | an entry survives loading exactly when it is an object with a truthy id and type square or circle |
| ShapeStore.LoadFilterAppend | lab-5/js/store.js:98-103 | the filter keeps order and multiplicity: one entry more at the end adds exactly that shape when it is loadable |
| ShapeStore.Load | lab-5/js/store.js:92-108 | a missing, unparsable or non-array value gives no shapes; every loaded shape is well-formed |
| ShapeStore.SaveLoadRoundTrip | lab-5/js/store.js:79-103 | loading a saved list of well-formed shapes gives the same list |
| ShapeStore.LoadAllLoadable | lab-5/js/store.js:98-103 | the filter keeps every entry of a list of well-formed shapes, in order |
| Cart.KeyOf | lab-7/components/cart-panel.js:57 | the key is the id if present, else the title if present, else `''` (only a missing value falls through) |
| Cart.PriceOf | lab-7/components/cart-panel.js:58 | a price that is not a number counts as 0 |
| Cart.FindLine | lab-7/components/cart-panel.js:59-61 | the first line with the same key and price, none exactly when there is none |
| Cart.AddItem | lab-7/components/cart-panel.js:55-74 | a missing item is ignored; a matching line gains one; otherwise a line of quantity 1 with the item's key, price and title is appended |
| Cart.RemoveItem | lab-7/components/cart-panel.js:76-81 | an index out of range does nothing; otherwise exactly that line goes |
| Cart.Increment | lab-7/components/cart-panel.js:83-88 | only the in-range line's quantity rises, by one |
| Cart.Decrement | lab-7/components/cart-panel.js:90-97 | the in-range line loses one and is removed when it reaches zero; an index out of range does nothing |
| Cart.TotalEmpty | lab-7/components/cart-panel.js:146-149 | the empty cart totals 0 |
| Cart.TotalRemove | lab-7/components/cart-panel.js:146-149 | removing a line lowers the total by that line's price times quantity |
| Cart.AddItemTotal | lab-7/components/cart-panel.js:146-149 | adding an item raises the total by its price |
| Cart.RemoveItemTotal | lab-7/components/cart-panel.js:146-149 | removing a line lowers the total by its price times quantity; out of range it stays |
| Cart.IncrementTotal | lab-7/components/cart-panel.js:146-149 | an increment raises the total by the line's price; out of range it stays |
| Cart.DecrementTotal | lab-7/components/cart-panel.js:146-149 | on a well-formed cart a decrement lowers the total by the line's price, whether the line stays or goes |
| Cart.AddItemWellFormed | lab-7/components/cart-panel.js:59-72 | adding keeps lines distinct by key and price, with positive quantities |
| Cart.RemoveItemWellFormed | lab-7/components/cart-panel.js:76-81 | removing keeps the cart well-formed |
| Cart.IncrementWellFormed | lab-7/components/cart-panel.js:83-88 | incrementing keeps the cart well-formed |
| Cart.DecrementWellFormed | lab-7/components/cart-panel.js:90-97 | decrementing keeps every remaining quantity at least 1 and lines distinct |
| Cart.AddItemTwice | lab-7/components/cart-panel.js:59-72 | adding a new item twice gives one new line of quantity 2 |
| Ajax.NewConfig | lab-6/js/ajax.js:2-11 | every given option overrides its default (`''`, `{}`, 5000, `{}`) |
| Ajax.SetBaseURL | lab-6/js/ajax.js:13-15 | a falsy URL becomes `''`; nothing else changes |
| Ajax.SetTimeout | lab-6/js/ajax.js:17-19 | only a positive number replaces the timeout, fractional ones included; anything else leaves the configuration as it is |
| Ajax.SetHeaders | lab-6/js/ajax.js:21-25 | the new headers are merged over the old, new keys winning, and a missing argument changes nothing |
| Ajax.UpdateConfig | lab-6/js/ajax.js:27-38 | a missing or non-object argument changes nothing; every present field goes through its setter or merge |
| Ajax.UpdateConfigEmpty | lab-6/js/ajax.js:27-38 | an empty update leaves the configuration alone |
| Ajax.MergeOptions | lab-6/js/ajax.js:144-155 | per-call base URL and timeout win when given; header and fetch-option maps merge with per-call keys winning |
| Ajax.MergeNoOptions | lab-6/js/ajax.js:144-155 | merging no per-call options gives the configuration back |
| Ajax.StripTrailingSlashes | lab-6/js/ajax.js:160 | removes exactly the trailing run of `/` |
| Ajax.StripLeadingSlashes | lab-6/js/ajax.js:161 | removes exactly the leading run of `/` |
| Ajax.BuildURL | lab-6/js/ajax.js:157-163 | an empty base, or an URL starting with `http://` or `https://` in any case, returns the URL unchanged; otherwise base and path are joined by one `/` |
| Ajax.BuildURLSeam | lab-6/js/ajax.js:160-162 | a joined URL has exactly one slash at the seam, with the base before and the path after it |
| Ajax.BuildURLIgnoresSeamSlashes | lab-6/js/ajax.js:160-162 | extra trailing slashes on the base or leading slashes on the path give the same URL |
| Ajax.HasContentTypeIn | lab-6/js/ajax.js:165-169 | true exactly when some key lower-cases to `content-type` |
| Ajax.RequestHeaders | lab-6/js/ajax.js:73-76 | a JSON content type is added only for a request with a body and no content-type header in any spelling |
| Ajax.RequestHeadersKeep | lab-6/js/ajax.js:64-76 | no caller header is overwritten, and a request with a body always carries a content type |
| Ajax.ClassifyResponse | lab-6/js/ajax.js:102-141 | a non-OK response is an error; 204 gives no content; otherwise JSON exactly when the content type includes `application/json`, raw text otherwise |
| Ajax.SafePreview | lab-6/js/ajax.js:171-178 | a serialisation of at most 120 UTF-16 units is kept whole; a longer one becomes its longest prefix of at most 117 units plus `...`, so 117 units unless unit 117 would split a pair, so at most 120 units; a failed serialisation gives `''` |
| Ajax.SafePreviewIdempotent | lab-6/js/ajax.js:174 | a preview fits in 120 units, so a preview of a preview is the same preview |
| Ajax.ErrorSnippet | lab-6/js/ajax.js:103-123 | an empty JSON object adds nothing; another JSON body adds a space and its preview; a text body adds a space and the longest prefix of its trimmed text that fits 120 UTF-16 units, all of it when it fits; a non-empty snippet starts with a space |
| Ajax.Prepare | lab-6/js/ajax.js:57-76 | the request uses the merged options' URL, timeout and headers with the content-type rule |
| MoviePrefs.Partner | final-project/components/movie-card.js:288-339 | each list's partner is another list |
| MoviePrefs.PartnerInvolutive | final-project/components/movie-card.js:288-339 | loved/hated and watched/watchlist pair up both ways |
| MoviePrefs.Put | final-project/components/movie-card.js:293-294 | storing one list leaves the other lists and the ratings alone |
| MoviePrefs.Without | final-project/components/movie-card.js:296-297 | the filter keeps exactly the other ids |
| MoviePrefs.WithoutAppend | final-project/components/movie-card.js:296-297 | the filter keeps order and multiplicity: one id more at the end is kept exactly when it is not the removed id |
| MoviePrefs.Flip | final-project/components/movie-card.js:295-296 | an absent id is pushed at the end, a present one is removed, other ids are unaffected |
| MoviePrefs.Toggle | final-project/components/movie-card.js:288-300 | the id's membership in the list flips, the partner list loses it, other ids and the other pair are unaffected, ratings are kept |
| MoviePrefs.ToggleKeepsExclusive | final-project/components/movie-card.js:292-297 | after any toggle no id is in both lists of a pair |
| MoviePrefs.ToggleTwice | final-project/components/movie-card.js:295-296 | toggling an id on and off again gives the list back |
| MoviePrefs.SaveRating | final-project/components/movie-details.js:317-337 | nothing happens without a movie; a blank entry stores nothing; a non-number or one outside 1 to 10 is rejected; otherwise the rating of the id is set |
| MoviePrefs.SaveRatingKeepsRest | final-project/components/movie-details.js:330-333 | a stored rating changes no list and no other movie's rating |
| MovieQuery.Serialize | final-project/components/movie-card.js:238-240 | the query string is empty exactly when there are no parameters |
| MovieQuery.SerializeAppend | final-project/components/movie-card.js:238-240 | one parameter is its `name=value`; each further parameter adds `&` and its `name=value`, in insertion order |
| MovieQuery.Query | final-project/components/movie-card.js:172-175 | `apikey` first, then the id or title parameter, then `y` when set, then `plot=full` when asked for |
| MovieQuery.LoadParams | final-project/components/movie-card.js:161-177 | nothing is fetched when both trimmed id and title are empty; the key falls back to the default; the id wins over the title; `y` is sent only when set |
| MovieCard.PosterOf | final-project/components/movie-card.js:203-204 | a missing or `'N/A'` poster becomes `''` |
| MovieCard.Load | final-project/components/movie-card.js:161-217 | without an id or title nothing changes; a found movie sets the card from the answer; on an error the title falls back to the title attribute, else the id, with no year or poster |
| MovieCard.DetailsParams | final-project/components/movie-card.js:229-237 | `apikey` only for a non-blank key; `imdb` when an id is known; otherwise `title` and then `y` if set |
| MovieCard.DetailsHref | final-project/components/movie-card.js:238-240 | the link has a `?` only when some parameter exists |
| MovieCard.BareDetailsLink | final-project/components/movie-card.js:238-240 | a card with no key, id or title links to the bare details page |
| MovieCard.View | final-project/components/movie-card.js:265-287 | with no id nothing is updated; each button is active exactly when the id is in its list; the rating is shown exactly when one is stored for the id |
| MovieCard.OnToggle | final-project/components/movie-card.js:288-339 | no handler saves anything before an id is loaded; otherwise the toggled record is saved |
| MovieCard.ToggleThenView | final-project/components/movie-card.js:288-300 | after a toggle the pressed button flips, its partner is off, and the other pair and the rating are as before |
| MovieDetails.SafeText | final-project/components/movie-details.js:211 | a missing, empty or `'N/A'` value shows `'—'`, any other value shows itself |
| MovieDetails.Present | final-project/components/movie-details.js:200 | never keeps an empty value, and never more values than it was given |
| MovieDetails.PresentMembers | final-project/components/movie-details.js:200 | a string survives `filter(Boolean)` exactly when it is one of the set, non-empty values |
| MovieDetails.PresentAppend | final-project/components/movie-details.js:200 | `filter(Boolean)` keeps order and multiplicity: one value more at the end adds exactly that value when it is set |
| MovieDetails.Meta | final-project/components/movie-details.js:200-201 | no set field gives `''`; a set year comes first |
| MovieDetails.MetaAllSet | final-project/components/movie-details.js:200-201 | with all four fields set the line is year, rating, runtime and genre joined by `' • '` |
| MovieDetails.MetaSkipsUnset | final-project/components/movie-details.js:200-201 | a missing or empty field leaves no separator behind |
| MovieDetails.SourceLines | final-project/components/movie-details.js:227-232 | an entry with both a source and a value gives its `Source: Value` line, and every line comes from such an entry |
| MovieDetails.SourceLinesAppend | final-project/components/movie-details.js:227-232 | the entries are visited in order: one entry more adds its line when complete and nothing otherwise |
| MovieDetails.ImdbLine | final-project/components/movie-details.js:220-225 | the line is `IMDb: <rating>/10`, followed by ` (<votes> votes)` exactly when the vote count is set and not `'N/A'`; it is never the dash |
| MovieDetails.RatingsList | final-project/components/movie-details.js:217-243 | the IMDb line comes first when the rating is valid, then the source lines in order; a single `'—'` exactly when there is neither |
| MovieDetails.LoadQuery | final-project/components/movie-details.js:168-179 | the card's query rules, and `plot=full` always last |
| MovieDetails.ToggleAsWritten | final-project/components/movie-details.js:263-315 | as written: love and hate stop at the undefined `saveStore`, watched and watchlist save the toggled record |
| MovieDetails.LoveHateNotPersisted | final-project/components/movie-details.js:274-287 | love and hate on the details page never save the toggled record |
| MovieDetails.OnToggle | final-project/components/movie-details.js:263-315 | as intended: all four handlers save exactly the record the movie card's toggle produces, once a movie is loaded; the id flips in the pressed list, leaves its partner, and the ratings stay |
| MovieDetails.OnToggleMatchesWritten | final-project/components/movie-details.js:291-315 | the intended handlers agree with the written ones wherever those reach `savePrefs` |
| MovieSearch.Defined | final-project/components/movie-search.js:110-113 | an empty field becomes undefined, any other stays |
| MovieSearch.ErrorHidden | final-project/components/movie-search.js:66-69 | the inline error is hidden exactly when the trimmed value is empty or has at least 3 UTF-16 units |
| MovieSearch.Submit | final-project/components/movie-search.js:87-119 | a trimmed query shorter than 3 UTF-16 units is rejected; otherwise the last search is stored with `''` for absent fields and the detail maps empty fields to undefined |
| MovieSearch.SubmitAgreesWithError | final-project/components/movie-search.js:66-101 | a submit goes through exactly when the inline error would be hidden for a non-blank query |
| MovieSearch.AstralQueries | final-project/components/movie-search.js:66-97 | lengths are JavaScript lengths: two characters above U+FFFF make a valid query, and one such character with a letter hides the error, while two letters do not |
| MovieSearch.Bootstrap | final-project/components/movie-search.js:121-161 | runs only the first time; uses the stored query only when it has at least 3 UTF-16 units, else `'Batman'`; other fields default to `''` |
| MovieSearch.BootstrapOnce | final-project/components/movie-search.js:123-124 | a second bootstrap does nothing |
| MovieSearch.BootstrapQueryValid | final-project/components/movie-search.js:135 | the bootstrap always searches for a query of at least 3 UTF-16 code units |
| MovieSearch.SubmitThenBootstrap | final-project/components/movie-search.js:103-151 | reloading after an accepted search dispatches the same detail the submit did |
| MovieSearch.PopulateYears | final-project/components/movie-search.js:162-172 | nothing when the select holds more than one option; otherwise the years from the current one down to 1900 inclusive |
| MovieSearch.YearsDescending | final-project/components/movie-search.js:166 | the year options are strictly descending, from the current year to 1900 |

## Left out

- Rendering, DOM event wiring, templates and CSS are not modelled. This includes the markup of `createColumn`/`renderCard`, the counters and the sort indicator. They hold no state rules. `Kanban.Render` keeps only the effect of `render` on the card markers.
- Storage and JSON are reduced to values. localStorage, `JSON.parse` and `JSON.stringify` are host I/O: a stored value is a parsed document or the reason there is none. A `localStorage.setItem` that throws is not modelled.
- Stored kanban cards are taken to hold exactly string `id`, `title` and `color` fields. Extra fields of a hand-edited document are not modelled, and neither are non-string values. The same goes for stored shapes and the prefs record.
- The network is left out: `fetch`, `AbortController`, the timeout timers and the response bodies. Only the URL, header, option and status rules are kept. The movie components' fetch is reduced to its outcome.
- Randomness and time are parameters: random ids, `randomColor`, the colour function of `recolorType`, and the current year. `Kanban.AddCard` requires the fresh id to be on no card.
- The `animationend`-delayed delete (lab-4/js/kanban.js:271-281) is asynchronous and not modelled. Only the synchronous removal is.
- Kanban.ApplySort: `localeCompare` is locale-dependent and is replaced by lexicographic order on code points (Unicode scalar values). This differs from UTF-16 unit order only between U+E000–U+FFFF and characters above U+FFFF. The order is proved reflexive, total, transitive and antisymmetric. The sort is a stable insertion sort, as `Array.prototype.sort` is stable (`Kanban.SortStable`).
- Cart.PriceOf: prices are whole grosze rather than floats. `Number(...)` happens in the caller, which passes `None` for a value that is not a number. `toLocaleString` currency formatting is passed in as a string.
- MoviePrefs.SaveRating: what `Number` makes of the trimmed text is a parameter (`None` for NaN). Ratings are reals.
- MovieCard.View: a rating stored as `null` is modelled as no rating. The source treats both the same (`!= null`).
- MovieQuery.Serialize: `URLSearchParams` percent-encoding is not modelled. Values are taken to need none.
- `DEFAULT_API_KEY` is imported from config.js, which is not part of this model. It is a parameter.
- Ajax.NewConfig: an option given explicitly as `undefined` is treated as absent. The constructor's spread would copy the `undefined`.
- Ajax.Prepare: `fetchOptions` can override `method`, `headers` and `signal` in `fetchInit`. The model does not include that.
- ShapeStore.Value: a topic that names an inherited property of the state object (`toString`, `constructor`) would yield that function instead of `undefined`; the program subscribes only `shapes`, so topics are treated as own names.
- Ajax.SetTimeout: timeouts are reals, so `Infinity` cannot be expressed; NaN, which is never positive, is passed as `None`.
- Ajax.SafePreview: where unit 117 would split a surrogate pair, `slice` keeps the lone high surrogate, which a string of Unicode scalar values cannot hold; the model stops before that character, so the prefix is 116 units.
- Ajax.ErrorSnippet: the 120-unit slice of the text body stops before a character that `slice` would split, in the same way, so it can end one unit short.
- Ajax: the serialisation of request bodies and the text of thrown errors (timeout, network, HTTP, invalid JSON) are left out. Only which kind of outcome a response gives is modelled.
- The theme toggle and the other UI glue files are left out (product and colour lists, the lab apps and demos, lab-5/js/ui.js). They hold no state rules.
- Behaviours of the code worth knowing, modelled as written:
  - loading does not drop cards without an id;
  - a missing column in a loaded document keeps the current column;
  - renaming an unknown card silently does nothing;
  - deleting an unknown card returns before saving;
  - an unknown column name throws; the model types columns as `ColumnId`, and `Kanban.ParseColumn` gives the string check.

## Findings

| source | as written | input that shows it | evidently intended | confidence | as-written member | corrected member |
|---|---|---|---|---|---|---|
| final-project/components/movie-details.js:274 | `#onLove` and `#onHate` end with `saveStore(store)`, a name the module never defines or imports (it imports `savePrefs`) | any loaded movie, then pressing love or hate on the details page: a `ReferenceError` is thrown before anything is saved or re-rendered | save the toggled record with `savePrefs`, as the watched/watchlist handlers and the movie card do | not executed | MovieDetails.ToggleAsWritten | MovieDetails.OnToggle |
