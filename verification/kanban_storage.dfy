/**
 * Saving and loading the kanban board (`stripTransient`, `saveState`,
 * `loadState`). Local storage and JSON are replaced by a `Document` value:
 * what `JSON.parse` produced from the stored string, or the reason there
 * is none.
 */
module KanbanStorage {
  import opened Wrappers
  import opened Seqs
  import opened Kanban

  /** A card as written to storage: `{id, title, color}`. */
  datatype StoredCard = StoredCard(id: string, title: string, color: string)

  /** The value under a column key: an array of cards, or anything else. */
  datatype Entry = CardList(cards: seq<StoredCard>) | NotAList

  /** The parsed document. `columns` is `None` when the document or its
      `columns` field is missing or falsy; `sortAscending` likewise. */
  datatype Document = Document(columns: Option<map<string, Entry>>,
                               sortAscending: Option<map<string, bool>>)

  /** What reading the storage key yields. */
  datatype Stored = Missing | Malformed | Parsed(doc: Document)

  /** `stripTransient` followed by serialisation of the three fields. */
  function StoreCard(c: Card): (s: StoredCard)
    ensures s.id == c.id && s.title == c.title && s.color == c.color
  {
    StoredCard(c.id, c.title, c.color)
  }

  /** `saveState`: the three columns without markers, and `sortAscending`
      exactly as it is in memory. */
  function Save(b: Board): (d: Document)
    ensures d.sortAscending == Some(b.sortAscending)
    ensures d.columns.Some? && d.columns.value.Keys == {"todo", "doing", "done"}
    ensures forall c :: Name(c) in d.columns.value && d.columns.value[Name(c)].CardList?
    ensures forall c :: |d.columns.value[Name(c)].cards| == |Cards(b, c)|
    ensures forall c, k :: 0 <= k < |Cards(b, c)| ==>
      d.columns.value[Name(c)].cards[k] == StoreCard(Cards(b, c)[k])
  {
    Document(Some(map["todo" := CardList(Map(StoreCard, b.todo)),
                      "doing" := CardList(Map(StoreCard, b.doing)),
                      "done" := CardList(Map(StoreCard, b.done))]),
             Some(b.sortAscending))
  }

  /** `saveState` also strips the markers from the cards in memory. */
  function StripAll(b: Board): (r: Board)
    ensures forall c :: |Cards(r, c)| == |Cards(b, c)|
    ensures forall c, k :: 0 <= k < |Cards(b, c)| ==> Cards(r, c)[k] == Plain(Cards(b, c)[k])
    ensures r.sortAscending == b.sortAscending
  {
    Board(Map(Plain, b.todo), Map(Plain, b.doing), Map(Plain, b.done), b.sortAscending)
  }

  /** A loaded card: the stored fields, marked as entering. */
  function Entering(s: StoredCard): (c: Card)
    ensures c.id == s.id && c.title == s.title && c.color == s.color
    ensures c.marks == NoMarks.(enter := true)
  {
    Card(s.id, s.title, s.color, NoMarks.(enter := true))
  }

  /** One column on load: replaced when the document holds an array under
      its key, kept otherwise. */
  function LoadColumn(cols: map<string, Entry>, c: ColumnId, current: seq<Card>): (r: seq<Card>)
    ensures Name(c) in cols && cols[Name(c)].CardList? ==> r == Map(Entering, cols[Name(c)].cards)
    ensures !(Name(c) in cols && cols[Name(c)].CardList?) ==> r == current
  {
    if Name(c) in cols && cols[Name(c)].CardList? then Map(Entering, cols[Name(c)].cards) else current
  }

  /** `loadState` applied to the board `b`. */
  function Load(b: Board, stored: Stored): (r: Board)
    ensures !stored.Parsed? ==> r == b
    ensures stored.Parsed? && stored.doc.columns.None? ==> r == b
    ensures stored.Parsed? && stored.doc.columns.Some? ==>
      forall c :: Cards(r, c) == LoadColumn(stored.doc.columns.value, c, Cards(b, c))
    ensures stored.Parsed? && stored.doc.columns.Some? && stored.doc.sortAscending.Some? ==>
      r.sortAscending == stored.doc.sortAscending.value
    ensures stored.Parsed? && stored.doc.sortAscending.None? ==> r.sortAscending == b.sortAscending
  {
    match stored
    case Missing => b
    case Malformed => b
    case Parsed(doc) =>
      match doc.columns
      case None => b
      case Some(cols) =>
        var loaded := Board(LoadColumn(cols, Todo, b.todo), LoadColumn(cols, Doing, b.doing),
                            LoadColumn(cols, Done, b.done), b.sortAscending);
        if doc.sortAscending.Some? then loaded.(sortAscending := doc.sortAscending.value) else loaded
  }

  /** Keys other than the three column names do not affect loading. */
  lemma LoadIgnoresOtherKeys(b: Board, cols: map<string, Entry>, key: string, e: Entry,
                             flags: Option<map<string, bool>>)
    requires key != "todo" && key != "doing" && key != "done"
    ensures Load(b, Parsed(Document(Some(cols[key := e]), flags)))
         == Load(b, Parsed(Document(Some(cols), flags)))
  {
    forall c
      ensures LoadColumn(cols[key := e], c, Cards(b, c)) == LoadColumn(cols, c, Cards(b, c))
    {
      assert Name(c) != key;
    }
  }

  /** Loading what was saved gives back the board, up to markers; every
      loaded card is marked as entering. */
  lemma SaveLoadRoundTrip(b: Board, current: Board)
    ensures StripAll(Load(current, Parsed(Save(b)))) == StripAll(b)
    ensures forall c, k :: 0 <= k < |Cards(Load(current, Parsed(Save(b))), c)| ==>
      Cards(Load(current, Parsed(Save(b))), c)[k].marks.enter
  {
    var r := Load(current, Parsed(Save(b)));
    forall c
      ensures Map(Plain, Cards(r, c)) == Map(Plain, Cards(b, c))
    {
      assert Cards(r, c) == Map(Entering, Map(StoreCard, Cards(b, c)));
    }
    assert StripAll(r).todo == StripAll(b).todo by {
      assert Map(Plain, Cards(r, Todo)) == Map(Plain, Cards(b, Todo));
    }
    assert StripAll(r).doing == StripAll(b).doing by {
      assert Map(Plain, Cards(r, Doing)) == Map(Plain, Cards(b, Doing));
    }
    assert StripAll(r).done == StripAll(b).done by {
      assert Map(Plain, Cards(r, Done)) == Map(Plain, Cards(b, Done));
    }
  }
}
