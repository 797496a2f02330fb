/**
 * The kanban board of lab 4: three fixed, ordered columns of cards, each
 * column with its own sort direction, and the operations the board's
 * buttons trigger. The page's single mutable `state` object becomes an
 * immutable `Board`; every operation is a function from the board before
 * the click to the board after it (before rendering and saving).
 */
module Kanban {
  import opened Wrappers
  import opened Text
  import opened Seqs

  datatype ColumnId = Todo | Doing | Done

  /** The traversal order a move is relative to. */
  const Order: seq<ColumnId> := [Todo, Doing, Done]

  function Rank(c: ColumnId): (i: nat)
    ensures i < |Order| && Order[i] == c
  {
    match c
    case Todo => 0
    case Doing => 1
    case Done => 2
  }

  /** The key of the column in `state.columns` and in the saved document. */
  function Name(c: ColumnId): string
  {
    match c
    case Todo => "todo"
    case Doing => "doing"
    case Done => "done"
  }

  /** The column a `data-column` string names; indexing `state.columns`
      with any other string yields `undefined` and the operation throws. */
  function ParseColumn(s: string): (r: Option<ColumnId>)
    ensures r.Some? ==> Name(r.value) == s
    ensures r.None? ==> forall c: ColumnId :: Name(c) != s
  {
    if s == "todo" then Some(Todo)
    else if s == "doing" then Some(Doing)
    else if s == "done" then Some(Done)
    else None
  }

  datatype Direction = Left | Right

  /** Render-only markers a card carries for one display cycle
      (`_enter`, `_moved`, `_recolor`, `_remove`). */
  datatype Marks = Marks(enter: bool, moved: Option<Direction>, recolor: bool, remove: bool)

  const NoMarks := Marks(false, None, false, false)

  datatype Card = Card(id: string, title: string, color: string, marks: Marks)

  /** `state`: the three columns and the `sortAscending` object, keyed by
      column name as in the source (a loaded object may lack keys). */
  datatype Board = Board(todo: seq<Card>, doing: seq<Card>, done: seq<Card>,
                         sortAscending: map<string, bool>)

  const DefaultTitle := "Nowa karta"

  const InitialBoard := Board([], [], [], map["todo" := true, "doing" := true, "done" := true])

  function Cards(b: Board, c: ColumnId): seq<Card>
  {
    match c
    case Todo => b.todo
    case Doing => b.doing
    case Done => b.done
  }

  function WithCards(b: Board, c: ColumnId, cs: seq<Card>): (r: Board)
    ensures Cards(r, c) == cs
    ensures forall d :: d != c ==> Cards(r, d) == Cards(b, d)
    ensures r.sortAscending == b.sortAscending
  {
    match c
    case Todo => b.(todo := cs)
    case Doing => b.(doing := cs)
    case Done => b.(done := cs)
  }

  /** `state.sortAscending[columnId]` read as a condition: a missing key
      is `undefined`, which is falsy. */
  predicate Ascending(b: Board, c: ColumnId)
  {
    Name(c) in b.sortAscending && b.sortAscending[Name(c)]
  }

  function Size(b: Board): nat
  {
    |b.todo| + |b.doing| + |b.done|
  }

  // ---------------------------------------------------------------------
  // Card identity and content

  function IdOf(c: Card): string { c.id }

  function TitleOf(c: Card): string { c.title }

  /** A card without its render-only markers. */
  function Plain(c: Card): (r: Card)
    ensures r.id == c.id && r.title == c.title && r.color == c.color
    ensures r.marks == NoMarks
  {
    c.(marks := NoMarks)
  }

  /** How many cards of `cs` carry `id`. */
  ghost function Count(cs: seq<Card>, id: string): nat
  {
    multiset(Map(IdOf, cs))[id]
  }

  ghost function Occurrences(b: Board, id: string): nat
  {
    Count(b.todo, id) + Count(b.doing, id) + Count(b.done, id)
  }

  /** Every card id sits in exactly one place on the whole board. */
  ghost predicate UniqueIds(b: Board)
  {
    forall id :: Occurrences(b, id) <= 1
  }

  ghost function ColumnContent(b: Board, c: ColumnId): multiset<Card>
  {
    multiset(Map(Plain, Cards(b, c)))
  }

  /** The cards on the board, ignoring order, columns and markers. */
  ghost function Content(b: Board): multiset<Card>
  {
    ColumnContent(b, Todo) + ColumnContent(b, Doing) + ColumnContent(b, Done)
  }

  lemma CountZero(cs: seq<Card>, id: string)
    ensures Count(cs, id) == 0 <==> forall j :: 0 <= j < |cs| ==> cs[j].id != id
  {
    var ids := Map(IdOf, cs);
    if Count(cs, id) == 0 {
      forall j | 0 <= j < |cs|
        ensures cs[j].id != id
      {
        assert ids[j] in multiset(ids);
      }
    } else {
      assert id in multiset(ids);
      var j :| 0 <= j < |ids| && ids[j] == id;
      assert cs[j].id == id;
    }
  }

  lemma CountRemoveAt(cs: seq<Card>, i: nat, id: string)
    requires i < |cs|
    ensures Count(RemoveAt(cs, i), id) + (if cs[i].id == id then 1 else 0) == Count(cs, id)
  {
    MapRemoveAt(IdOf, cs, i);
  }

  // ---------------------------------------------------------------------
  // Sorting by title (applySort). `localeCompare` is replaced by the
  // code-point lexicographic order `LexLe`; `Array.prototype.sort` is
  // stable, and so is the insertion sort below (`SortStable`).

  /** Title `s` may precede title `t` in the given direction. */
  predicate TitleLe(asc: bool, s: string, t: string)
  {
    if asc then LexLe(s, t) else LexLe(t, s)
  }

  predicate Before(asc: bool, x: Card, y: Card)
  {
    TitleLe(asc, x.title, y.title)
  }

  ghost predicate Sorted(cs: seq<Card>, asc: bool)
  {
    forall i, j :: 0 <= i < j < |cs| ==> Before(asc, cs[i], cs[j])
  }

  ghost predicate SortedTitles(ts: seq<string>, asc: bool)
  {
    forall i, j :: 0 <= i < j < |ts| ==> TitleLe(asc, ts[i], ts[j])
  }

  lemma TitleLeTotal(asc: bool, s: string, t: string)
    ensures TitleLe(asc, s, t) || TitleLe(asc, t, s)
  {
    LexLeTotal(s, t);
  }

  lemma TitleLeTransitive(asc: bool, s: string, t: string, u: string)
    requires TitleLe(asc, s, t) && TitleLe(asc, t, u)
    ensures TitleLe(asc, s, u)
  {
    if asc {
      LexLeTransitive(s, t, u);
    } else {
      LexLeTransitive(u, t, s);
    }
  }

  /** Inserts `x` after every card that may precede it: the step of a
      stable insertion sort. */
  function Insert(x: Card, cs: seq<Card>, asc: bool): (r: seq<Card>)
    ensures |r| == |cs| + 1
    ensures multiset(r) == multiset(cs) + multiset{x}
  {
    if |cs| == 0 then [x]
    else if Before(asc, cs[0], x) then
      assert cs == [cs[0]] + cs[1..];
      [cs[0]] + Insert(x, cs[1..], asc)
    else [x] + cs
  }

  lemma {:induction false} InsertSorted(x: Card, cs: seq<Card>, asc: bool)
    requires Sorted(cs, asc)
    ensures Sorted(Insert(x, cs, asc), asc)
  {
    var r := Insert(x, cs, asc);
    if |cs| == 0 {
    } else if Before(asc, cs[0], x) {
      var tail := Insert(x, cs[1..], asc);
      InsertSorted(x, cs[1..], asc);
      forall j | 0 <= j < |tail|
        ensures Before(asc, cs[0], tail[j])
      {
        assert tail[j] in multiset(tail);
        if tail[j] != x {
          assert tail[j] in multiset(cs[1..]);
          var m :| 0 <= m < |cs[1..]| && cs[1..][m] == tail[j];
          assert cs[m + 1] == tail[j];
        }
      }
      assert r == [cs[0]] + tail;
      forall i, j | 0 <= i < j < |r|
        ensures Before(asc, r[i], r[j])
      {
        if i > 0 {
          assert r[i] == tail[i - 1] && r[j] == tail[j - 1];
        } else {
          assert r[j] == tail[j - 1];
        }
      }
    } else {
      TitleLeTotal(asc, cs[0].title, x.title);
      forall j | 0 <= j < |cs|
        ensures Before(asc, x, cs[j])
      {
        if j > 0 {
          TitleLeTransitive(asc, x.title, cs[0].title, cs[j].title);
        }
      }
      assert r == [x] + cs;
      forall i, j | 0 <= i < j < |r|
        ensures Before(asc, r[i], r[j])
      {
        if i > 0 {
          assert r[i] == cs[i - 1] && r[j] == cs[j - 1];
        } else {
          assert r[j] == cs[j - 1];
        }
      }
    }
  }

  /** `applySort`: the cards ordered by title in the given direction, ties
      kept in their original order. */
  function ApplySort(cs: seq<Card>, asc: bool): (r: seq<Card>)
    ensures Sorted(r, asc)
    ensures multiset(r) == multiset(cs)
    decreases |cs|
  {
    if |cs| == 0 then []
    else
      var init := ApplySort(cs[..|cs| - 1], asc);
      InsertSorted(cs[|cs| - 1], init, asc);
      assert cs == cs[..|cs| - 1] + [cs[|cs| - 1]];
      Insert(cs[|cs| - 1], init, asc)
  }

  /** The cards titled `t`, in column order. */
  function Titled(cs: seq<Card>, t: string): (r: seq<Card>)
    ensures |r| <= |cs|
    ensures forall k :: 0 <= k < |r| ==> r[k].title == t
  {
    if cs == [] then [] else (if cs[0].title == t then [cs[0]] else []) + Titled(cs[1..], t)
  }

  lemma {:induction false} TitledAppend(a: seq<Card>, b: seq<Card>, t: string)
    ensures Titled(a + b, t) == Titled(a, t) + Titled(b, t)
  {
    if a == [] {
      assert a + b == b;
    } else {
      assert (a + b)[1..] == a[1..] + b;
      TitledAppend(a[1..], b, t);
    }
  }

  lemma TitledLast(cs: seq<Card>, x: Card, t: string)
    ensures Titled(cs + [x], t) == Titled(cs, t) + (if x.title == t then [x] else [])
  {
    TitledAppend(cs, [x], t);
    assert [x][1..] == [];
  }

  lemma {:induction false} NoneTitled(cs: seq<Card>, t: string)
    requires forall k :: 0 <= k < |cs| ==> cs[k].title != t
    ensures Titled(cs, t) == []
  {
    if cs != [] {
      NoneTitled(cs[1..], t);
    }
  }

  lemma SortedTail(cs: seq<Card>, asc: bool)
    requires Sorted(cs, asc) && cs != []
    ensures Sorted(cs[1..], asc)
  {
    forall i, j | 0 <= i < j < |cs[1..]|
      ensures Before(asc, cs[1..][i], cs[1..][j])
    {
      assert cs[1..][i] == cs[i + 1] && cs[1..][j] == cs[j + 1];
    }
  }

  /** Inserting `x` puts it after every card of its own title. */
  lemma {:induction false} InsertStable(x: Card, cs: seq<Card>, asc: bool, t: string)
    requires Sorted(cs, asc)
    ensures Titled(Insert(x, cs, asc), t) == Titled(cs, t) + (if x.title == t then [x] else [])
  {
    var xs := if x.title == t then [x] else [];
    if |cs| == 0 {
      assert Insert(x, cs, asc) == [x] + cs;
      TitledCons(x, cs, t);
    } else if Before(asc, cs[0], x) {
      SortedTail(cs, asc);
      InsertStable(x, cs[1..], asc, t);
      InsertBehindStable(x, cs, asc, t);
    } else {
      assert Insert(x, cs, asc) == [x] + cs;
      InsertFrontStable(x, cs, asc, t);
    }
  }

  /** The step behind the head of the column: if inserting into the rest
      is stable, so is inserting into the whole column. */
  lemma InsertBehindStable(x: Card, cs: seq<Card>, asc: bool, t: string)
    requires cs != [] && Before(asc, cs[0], x)
    requires Titled(Insert(x, cs[1..], asc), t) == Titled(cs[1..], t) + (if x.title == t then [x] else [])
    ensures Titled(Insert(x, cs, asc), t) == Titled(cs, t) + (if x.title == t then [x] else [])
  {
    var xs := if x.title == t then [x] else [];
    var h := if cs[0].title == t then [cs[0]] else [];
    var tail := Insert(x, cs[1..], asc);
    var rest := Titled(cs[1..], t);
    assert Insert(x, cs, asc) == [cs[0]] + tail;
    TitledCons(cs[0], tail, t);
    assert cs == [cs[0]] + cs[1..];
    TitledCons(cs[0], cs[1..], t);
    ConcatAssoc(h, rest, xs);
  }

  lemma TitledCons(c: Card, cs: seq<Card>, t: string)
    ensures Titled([c] + cs, t) == (if c.title == t then [c] else []) + Titled(cs, t)
  {
    assert ([c] + cs)[1..] == cs;
  }

  /** A card that goes in front of a sorted column precedes every card of
      its title, because there is none. */
  lemma InsertFrontStable(x: Card, cs: seq<Card>, asc: bool, t: string)
    requires Sorted(cs, asc) && cs != [] && !Before(asc, cs[0], x)
    ensures Titled([x] + cs, t) == Titled(cs, t) + (if x.title == t then [x] else [])
  {
    TitledAppend([x], cs, t);
    assert [x][1..] == [];
    if x.title == t {
      forall k | 0 <= k < |cs|
        ensures cs[k].title != t
      {
        if k == 0 {
          LexLeReflexive(t);
        } else {
          assert Before(asc, cs[0], cs[k]);
        }
      }
      NoneTitled(cs, t);
    }
  }

  /** `applySort` is stable: the cards of any one title keep their order. */
  lemma {:induction false} SortStable(cs: seq<Card>, asc: bool, t: string)
    ensures Titled(ApplySort(cs, asc), t) == Titled(cs, t)
    decreases |cs|
  {
    if |cs| > 0 {
      var init := cs[..|cs| - 1];
      var last := cs[|cs| - 1];
      assert cs == init + [last];
      var sorted := ApplySort(init, asc);
      assert ApplySort(cs, asc) == Insert(last, sorted, asc);
      SortStable(init, asc, t);
      InsertStable(last, sorted, asc, t);
      TitledLast(init, last, t);
    }
  }

  /** Inserting a card that may follow every card appends it. */
  lemma {:induction false} InsertLast(x: Card, cs: seq<Card>, asc: bool)
    requires forall k :: 0 <= k < |cs| ==> Before(asc, cs[k], x)
    ensures Insert(x, cs, asc) == cs + [x]
  {
    if |cs| > 0 {
      InsertLast(x, cs[1..], asc);
      assert cs == [cs[0]] + cs[1..];
    }
  }

  /** Sorting a column already sorted in that direction changes nothing. */
  lemma {:induction false} SortSorted(cs: seq<Card>, asc: bool)
    requires Sorted(cs, asc)
    ensures ApplySort(cs, asc) == cs
    decreases |cs|
  {
    if |cs| > 0 {
      var init := cs[..|cs| - 1];
      var last := cs[|cs| - 1];
      assert cs == init + [last];
      SortedInit(cs, asc);
      SortSorted(init, asc);
      assert ApplySort(cs, asc) == Insert(last, ApplySort(init, asc), asc);
      InsertLast(last, init, asc);
    }
  }

  lemma SortedInit(cs: seq<Card>, asc: bool)
    requires Sorted(cs, asc) && cs != []
    ensures Sorted(cs[..|cs| - 1], asc)
    ensures forall k :: 0 <= k < |cs| - 1 ==> Before(asc, cs[k], cs[|cs| - 1])
  {
  }

  lemma SortLength(cs: seq<Card>, asc: bool)
    ensures |ApplySort(cs, asc)| == |cs|
  {
    assert |multiset(ApplySort(cs, asc))| == |multiset(cs)|;
  }

  /** Appending `x` and re-sorting adds exactly `x` to the column. */
  lemma SortAppendMap<B>(f: Card -> B, cs: seq<Card>, x: Card, asc: bool)
    ensures multiset(Map(f, ApplySort(cs + [x], asc))) == multiset(Map(f, cs)) + multiset{f(x)}
  {
    MapPermutation(f, ApplySort(cs + [x], asc), cs + [x]);
    MapAppendOne(f, cs, x);
  }

  /** Two columns sorted in the same direction that hold the same titles
      list those titles in the same order. */
  lemma {:induction false} SortedTitlesUnique(a: seq<string>, b: seq<string>, asc: bool)
    requires SortedTitles(a, asc) && SortedTitles(b, asc)
    requires multiset(a) == multiset(b)
    ensures a == b
    decreases |a|
  {
    if |a| == 0 {
      assert |multiset(b)| == 0;
    } else {
      assert a[0] in multiset(b);
      var k :| 0 <= k < |b| && b[k] == a[0];
      assert b[0] in multiset(a);
      var m :| 0 <= m < |a| && a[m] == b[0];
      assert TitleLe(asc, a[0], b[0]) by {
        if m > 0 {
          assert TitleLe(asc, a[0], a[m]);
        } else {
          LexLeReflexive(a[0]);
        }
      }
      assert TitleLe(asc, b[0], a[0]) by {
        if k > 0 {
          assert TitleLe(asc, b[0], b[k]);
        } else {
          LexLeReflexive(b[0]);
        }
      }
      if asc {
        LexLeAntisymmetric(a[0], b[0]);
      } else {
        LexLeAntisymmetric(b[0], a[0]);
      }
      assert a == [a[0]] + a[1..] && b == [b[0]] + b[1..];
      assert multiset(a) == multiset(a[1..]) + multiset{a[0]};
      assert multiset(b) == multiset(b[1..]) + multiset{a[0]};
      MultisetCancel(multiset(a[1..]), multiset(b[1..]), a[0]);
      assert SortedTitles(a[1..], asc) by {
        forall i, j | 0 <= i < j < |a[1..]|
          ensures TitleLe(asc, a[1..][i], a[1..][j])
        {
          assert a[1..][i] == a[i + 1] && a[1..][j] == a[j + 1];
        }
      }
      assert SortedTitles(b[1..], asc) by {
        forall i, j | 0 <= i < j < |b[1..]|
          ensures TitleLe(asc, b[1..][i], b[1..][j])
        {
          assert b[1..][i] == b[i + 1] && b[1..][j] == b[j + 1];
        }
      }
      SortedTitlesUnique(a[1..], b[1..], asc);
    }
  }

  // ---------------------------------------------------------------------
  // Finding cards (findCard and the scans of moveCard / deleteCard)

  /** `findIndex` on one column. */
  function IndexOf(cs: seq<Card>, id: string): (r: Option<nat>)
    ensures r.Some? ==> r.value < |cs| && cs[r.value].id == id
    ensures r.Some? ==> forall j :: 0 <= j < r.value ==> cs[j].id != id
    ensures r.None? ==> forall j :: 0 <= j < |cs| ==> cs[j].id != id
  {
    if |cs| == 0 then None
    else if cs[0].id == id then Some(0)
    else match IndexOf(cs[1..], id)
      case None => None
      case Some(i) => Some(i + 1)
  }

  datatype Position = Position(column: ColumnId, index: nat)

  /** The first card with `id`, scanning `todo`, `doing`, `done` in turn. */
  function Locate(b: Board, id: string): (r: Option<Position>)
    ensures r.Some? ==> r.value.index < |Cards(b, r.value.column)|
    ensures r.Some? ==> Cards(b, r.value.column)[r.value.index].id == id
    ensures r.Some? ==> forall j :: 0 <= j < r.value.index ==> Cards(b, r.value.column)[j].id != id
    ensures r.Some? ==> forall d :: Rank(d) < Rank(r.value.column) ==> Count(Cards(b, d), id) == 0
    ensures r.None? <==> Occurrences(b, id) == 0
  {
    CountZero(b.todo, id);
    CountZero(b.doing, id);
    CountZero(b.done, id);
    match IndexOf(b.todo, id)
    case Some(i) => Some(Position(Todo, i))
    case None =>
      match IndexOf(b.doing, id)
      case Some(i) => Some(Position(Doing, i))
      case None =>
        match IndexOf(b.done, id)
        case Some(i) => Some(Position(Done, i))
        case None => None
  }

  /** `findCard`. */
  function FindCard(b: Board, id: string): (r: Option<Card>)
    ensures r.Some? ==> r.value.id == id
    ensures r.None? <==> Occurrences(b, id) == 0
  {
    match Locate(b, id)
    case None => None
    case Some(p) => Some(Cards(b, p.column)[p.index])
  }

  // ---------------------------------------------------------------------
  // Replacing one column: how the board-wide counts change

  lemma ReplaceColumn(b: Board, c: ColumnId, cs: seq<Card>, added: multiset<Card>, removed: multiset<Card>)
    requires multiset(Map(Plain, cs)) + removed == ColumnContent(b, c) + added
    ensures Content(WithCards(b, c, cs)) + removed == Content(b) + added
  {
    var r := WithCards(b, c, cs);
    forall y
      ensures (Content(r) + removed)[y] == (Content(b) + added)[y]
    {
      assert (multiset(Map(Plain, cs)) + removed)[y] == (ColumnContent(b, c) + added)[y];
      assert ColumnContent(r, c) == multiset(Map(Plain, cs));
    }
  }

  lemma ReplaceColumnCount(b: Board, c: ColumnId, cs: seq<Card>, x: string)
    ensures Occurrences(WithCards(b, c, cs), x) + Count(Cards(b, c), x) == Occurrences(b, x) + Count(cs, x)
  {
  }

  // ---------------------------------------------------------------------
  // Operations

  /** The card `addCard` creates from a fresh id and a generated colour. */
  function NewCard(id: string, color: string): (c: Card)
    ensures c.id == id && c.title == DefaultTitle && c.color == color
    ensures c.marks.enter && c.marks.moved.None? && !c.marks.recolor && !c.marks.remove
  {
    Card(id, DefaultTitle, color, Marks(true, None, false, false))
  }

  /** `addCard`: appends a new card to column `c` and re-sorts only that
      column. `id` stands for the generated identifier, which is fresh. */
  function AddCard(b: Board, c: ColumnId, id: string, color: string): (r: Board)
    requires Occurrences(b, id) == 0
    ensures |Cards(r, c)| == |Cards(b, c)| + 1
    ensures multiset(Cards(r, c)) == multiset(Cards(b, c)) + multiset{NewCard(id, color)}
    ensures Sorted(Cards(r, c), Ascending(b, c))
    ensures forall d :: d != c ==> Cards(r, d) == Cards(b, d)
    ensures r.sortAscending == b.sortAscending
  {
    var card := NewCard(id, color);
    SortLength(Cards(b, c) + [card], Ascending(b, c));
    WithCards(b, c, ApplySort(Cards(b, c) + [card], Ascending(b, c)))
  }

  /** Adding a card puts exactly one new card, with the fresh id, on the
      board and keeps ids unique. */
  lemma AddCardContent(b: Board, c: ColumnId, id: string, color: string)
    requires Occurrences(b, id) == 0
    ensures Content(AddCard(b, c, id, color)) == Content(b) + multiset{Plain(NewCard(id, color))}
    ensures Size(AddCard(b, c, id, color)) == Size(b) + 1
  {
    var card := NewCard(id, color);
    var cs := ApplySort(Cards(b, c) + [card], Ascending(b, c));
    assert AddCard(b, c, id, color) == WithCards(b, c, cs);
    SortAppendMap(Plain, Cards(b, c), card, Ascending(b, c));
    ReplaceColumn(b, c, cs, multiset{Plain(card)}, multiset{});
  }

  /** Adding a card puts exactly one card with the fresh id on the board
      and keeps ids unique. */
  lemma AddCardIds(b: Board, c: ColumnId, id: string, color: string)
    requires Occurrences(b, id) == 0
    ensures Occurrences(AddCard(b, c, id, color), id) == 1
    ensures forall x :: x != id ==> Occurrences(AddCard(b, c, id, color), x) == Occurrences(b, x)
    ensures UniqueIds(b) ==> UniqueIds(AddCard(b, c, id, color))
  {
    var card := NewCard(id, color);
    var cs := ApplySort(Cards(b, c) + [card], Ascending(b, c));
    var r := AddCard(b, c, id, color);
    assert r == WithCards(b, c, cs);
    SortAppendMap(IdOf, Cards(b, c), card, Ascending(b, c));
    forall x
      ensures Occurrences(r, x) == Occurrences(b, x) + (if x == id then 1 else 0)
    {
      ReplaceColumnCount(b, c, cs, x);
    }
  }

  /** The adjacent column in `Order`, if there is one. */
  function Neighbour(c: ColumnId, dir: Direction): (r: Option<ColumnId>)
    ensures r.None? <==> (c == Todo && dir == Left) || (c == Done && dir == Right)
    ensures r.Some? && dir == Left ==> Rank(r.value) + 1 == Rank(c)
    ensures r.Some? && dir == Right ==> Rank(r.value) == Rank(c) + 1
  {
    var t: int := if dir == Left then Rank(c) - 1 else Rank(c) + 1;
    assert t == -1 ==> c == Todo && dir == Left;
    assert t == 3 ==> c == Done && dir == Right;
    if t < 0 || t >= |Order| then None else Some(Order[t])
  }

  function WithMove(c: Card, dir: Direction): (r: Card)
    ensures Plain(r) == Plain(c) && r.marks.moved == Some(dir)
  {
    c.(marks := c.marks.(moved := Some(dir)))
  }

  /** `moveCard`: moves the card one column to the left or right. */
  function MoveCard(b: Board, id: string, dir: Direction): (r: Board)
    ensures Locate(b, id).None? ==> r == b
    ensures Locate(b, id).Some? && Neighbour(Locate(b, id).value.column, dir).None? ==> r == b
    ensures var p := Locate(b, id);
      p.Some? && Neighbour(p.value.column, dir).Some? ==>
        var from := p.value.column;
        var to := Neighbour(from, dir).value;
        var card := Cards(b, from)[p.value.index];
        && Cards(r, from) == RemoveAt(Cards(b, from), p.value.index)
        && |Cards(r, to)| == |Cards(b, to)| + 1
        && multiset(Cards(r, to)) == multiset(Cards(b, to)) + multiset{WithMove(card, dir)}
        && Sorted(Cards(r, to), Ascending(b, to))
        && (forall d :: d != from && d != to ==> Cards(r, d) == Cards(b, d))
    ensures r.sortAscending == b.sortAscending
  {
    match Locate(b, id)
    case None => b
    case Some(p) =>
      match Neighbour(p.column, dir)
      case None => b
      case Some(to) =>
        var src := Cards(b, p.column);
        var moved := WithMove(src[p.index], dir);
        SortLength(Cards(b, to) + [moved], Ascending(b, to));
        var b1 := WithCards(b, p.column, RemoveAt(src, p.index));
        WithCards(b1, to, ApplySort(Cards(b, to) + [moved], Ascending(b, to)))
  }

  /** The board after taking the `i`-th card of `from` and appending it,
      marked as moved, to `to` with `to` re-sorted. */
  function Transfer(b: Board, from: ColumnId, i: nat, to: ColumnId, dir: Direction): Board
    requires i < |Cards(b, from)| && from != to
  {
    var src := Cards(b, from);
    var moved := WithMove(src[i], dir);
    var b1 := WithCards(b, from, RemoveAt(src, i));
    WithCards(b1, to, ApplySort(Cards(b, to) + [moved], Ascending(b, to)))
  }

  lemma TransferContent(b: Board, from: ColumnId, i: nat, to: ColumnId, dir: Direction)
    requires i < |Cards(b, from)| && from != to
    ensures Content(Transfer(b, from, i, to, dir)) == Content(b)
  {
    var src := Cards(b, from);
    var moved := WithMove(src[i], dir);
    var b1 := WithCards(b, from, RemoveAt(src, i));
    var cs := ApplySort(Cards(b, to) + [moved], Ascending(b, to));
    assert Cards(b1, to) == Cards(b, to);
    var p := Plain(src[i]);
    assert Plain(moved) == p;
    assert Content(b1) + multiset{p} == Content(b) by {
      MapRemoveAt(Plain, src, i);
      ReplaceColumn(b, from, RemoveAt(src, i), multiset{}, multiset{p});
    }
    assert Content(WithCards(b1, to, cs)) == Content(b1) + multiset{p} by {
      SortAppendMap(Plain, Cards(b, to), moved, Ascending(b, to));
      ReplaceColumn(b1, to, cs, multiset{p}, multiset{});
    }
  }

  lemma TransferSize(b: Board, from: ColumnId, i: nat, to: ColumnId, dir: Direction)
    requires i < |Cards(b, from)| && from != to
    ensures Size(Transfer(b, from, i, to, dir)) == Size(b)
  {
    SortLength(Cards(b, to) + [WithMove(Cards(b, from)[i], dir)], Ascending(b, to));
  }

  lemma TransferCount(b: Board, from: ColumnId, i: nat, to: ColumnId, dir: Direction, x: string)
    requires i < |Cards(b, from)| && from != to
    ensures Occurrences(Transfer(b, from, i, to, dir), x) == Occurrences(b, x)
  {
    var src := Cards(b, from);
    var moved := WithMove(src[i], dir);
    var b1 := WithCards(b, from, RemoveAt(src, i));
    var cs := ApplySort(Cards(b, to) + [moved], Ascending(b, to));
    SortAppendMap(IdOf, Cards(b1, to), moved, Ascending(b, to));
    ReplaceColumnCount(b, from, RemoveAt(src, i), x);
    CountRemoveAt(src, i, x);
    ReplaceColumnCount(b1, to, cs, x);
  }

  /** A move keeps the number of cards and the cards themselves (up to
      the move marker). */
  lemma MoveCardContent(b: Board, id: string, dir: Direction)
    ensures Size(MoveCard(b, id, dir)) == Size(b)
    ensures Content(MoveCard(b, id, dir)) == Content(b)
  {
    var p := Locate(b, id);
    if p.Some? && Neighbour(p.value.column, dir).Some? {
      var to := Neighbour(p.value.column, dir).value;
      assert MoveCard(b, id, dir) == Transfer(b, p.value.column, p.value.index, to, dir);
      TransferContent(b, p.value.column, p.value.index, to, dir);
      TransferSize(b, p.value.column, p.value.index, to, dir);
    }
  }

  /** A move keeps every id's number of occurrences on the board. */
  lemma MoveCardIds(b: Board, id: string, dir: Direction)
    ensures forall x :: Occurrences(MoveCard(b, id, dir), x) == Occurrences(b, x)
    ensures UniqueIds(b) ==> UniqueIds(MoveCard(b, id, dir))
  {
    var p := Locate(b, id);
    if p.Some? && Neighbour(p.value.column, dir).Some? {
      var to := Neighbour(p.value.column, dir).value;
      assert MoveCard(b, id, dir) == Transfer(b, p.value.column, p.value.index, to, dir);
      forall x
        ensures Occurrences(MoveCard(b, id, dir), x) == Occurrences(b, x)
      {
        TransferCount(b, p.value.column, p.value.index, to, dir, x);
      }
    }
  }

  /** `deleteCard`, synchronous branch: removes the first card with `id`,
      the rest of its column keeping their order. */
  function DeleteCard(b: Board, id: string): (r: Board)
    ensures Locate(b, id).None? ==> r == b
    ensures var p := Locate(b, id);
      p.Some? ==>
        && Cards(r, p.value.column) == RemoveAt(Cards(b, p.value.column), p.value.index)
        && (forall d :: d != p.value.column ==> Cards(r, d) == Cards(b, d))
    ensures r.sortAscending == b.sortAscending
  {
    match Locate(b, id)
    case None => b
    case Some(p) => WithCards(b, p.column, RemoveAt(Cards(b, p.column), p.index))
  }

  /** Deleting takes exactly one card, the one `findCard` returns, off
      the board. */
  lemma DeleteCardContent(b: Board, id: string)
    ensures Occurrences(b, id) > 0 ==>
      && Content(DeleteCard(b, id)) + multiset{Plain(FindCard(b, id).value)} == Content(b)
      && Size(DeleteCard(b, id)) + 1 == Size(b)
  {
    var p := Locate(b, id);
    if p.Some? {
      var src := Cards(b, p.value.column);
      MapRemoveAt(Plain, src, p.value.index);
      ReplaceColumn(b, p.value.column, RemoveAt(src, p.value.index), multiset{}, multiset{Plain(src[p.value.index])});
    }
  }

  /** Deleting lowers the count of `id` by one and no other id's count;
      on a board with unique ids the id is then gone. */
  lemma DeleteCardIds(b: Board, id: string)
    ensures Occurrences(b, id) > 0 ==> Occurrences(DeleteCard(b, id), id) + 1 == Occurrences(b, id)
    ensures forall x :: x != id ==> Occurrences(DeleteCard(b, id), x) == Occurrences(b, x)
    ensures UniqueIds(b) ==> UniqueIds(DeleteCard(b, id)) && Occurrences(DeleteCard(b, id), id) == 0
  {
    var p := Locate(b, id);
    if p.Some? {
      var src := Cards(b, p.value.column);
      forall x
        ensures Occurrences(DeleteCard(b, id), x) + (if x == id then 1 else 0) == Occurrences(b, x)
      {
        ReplaceColumnCount(b, p.value.column, RemoveAt(src, p.value.index), x);
        CountRemoveAt(src, p.value.index, x);
      }
    }
  }

  /** The same cards in the same order with the same ids and titles. */
  predicate SameIdsAndTitles(xs: seq<Card>, ys: seq<Card>)
  {
    |xs| == |ys| && forall k :: 0 <= k < |xs| ==> xs[k].id == ys[k].id && xs[k].title == ys[k].title
  }

  /** `recolorCard`: gives the first card with `id` the colour `color`. */
  function RecolorCard(b: Board, id: string, color: string): (r: Board)
    ensures Locate(b, id).None? ==> r == b
    ensures var p := Locate(b, id);
      p.Some? ==>
        var cs := Cards(r, p.value.column);
        && SameIdsAndTitles(cs, Cards(b, p.value.column))
        && cs[p.value.index].color == color && cs[p.value.index].marks.recolor
        && (forall k :: 0 <= k < |cs| && k != p.value.index ==> cs[k] == Cards(b, p.value.column)[k])
        && (forall d :: d != p.value.column ==> Cards(r, d) == Cards(b, d))
    ensures r.sortAscending == b.sortAscending
  {
    match Locate(b, id)
    case None => b
    case Some(p) =>
      var src := Cards(b, p.column);
      var card := src[p.index];
      WithCards(b, p.column, src[p.index := card.(color := color, marks := card.marks.(recolor := true))])
  }

  /** `colorAll`: gives every card of column `c` a new colour, the k-th
      card receiving `colors[k]`; nothing is re-sorted. */
  function ColorAll(b: Board, c: ColumnId, colors: seq<string>): (r: Board)
    requires |colors| == |Cards(b, c)|
    ensures SameIdsAndTitles(Cards(r, c), Cards(b, c))
    ensures forall k :: 0 <= k < |colors| ==> Cards(r, c)[k].color == colors[k] && Cards(r, c)[k].marks.recolor
    ensures forall d :: d != c ==> Cards(r, d) == Cards(b, d)
    ensures r.sortAscending == b.sortAscending
  {
    var src := Cards(b, c);
    WithCards(b, c, seq(|src|, k requires 0 <= k < |src| =>
      src[k].(color := colors[k], marks := src[k].marks.(recolor := true))))
  }

  /** `toggleSort`: flips the column's direction and re-sorts it. */
  function ToggleSort(b: Board, c: ColumnId): (r: Board)
    ensures Ascending(r, c) == !Ascending(b, c)
    ensures Name(c) in r.sortAscending
    ensures forall k :: k != Name(c) ==> (k in r.sortAscending <==> k in b.sortAscending)
    ensures forall k :: k != Name(c) && k in b.sortAscending ==> r.sortAscending[k] == b.sortAscending[k]
    ensures Sorted(Cards(r, c), Ascending(r, c))
    ensures multiset(Cards(r, c)) == multiset(Cards(b, c))
    ensures forall d :: d != c ==> Cards(r, d) == Cards(b, d)
  {
    var asc := !Ascending(b, c);
    WithCards(b.(sortAscending := b.sortAscending[Name(c) := asc]), c, ApplySort(Cards(b, c), asc))
  }

  /** Toggling the sort direction keeps the cards and their ids. */
  lemma ToggleSortContent(b: Board, c: ColumnId)
    ensures Content(ToggleSort(b, c)) == Content(b)
  {
    var asc := !Ascending(b, c);
    var b1 := b.(sortAscending := b.sortAscending[Name(c) := asc]);
    var cs := ApplySort(Cards(b, c), asc);
    assert ToggleSort(b, c) == WithCards(b1, c, cs);
    assert ColumnContent(b1, c) == multiset(Map(Plain, cs)) by {
      MapPermutation(Plain, cs, Cards(b, c));
    }
    ReplaceColumn(b1, c, cs, multiset{}, multiset{});
  }

  lemma ToggleSortIds(b: Board, c: ColumnId)
    ensures forall x :: Occurrences(ToggleSort(b, c), x) == Occurrences(b, x)
  {
    var asc := !Ascending(b, c);
    var b1 := b.(sortAscending := b.sortAscending[Name(c) := asc]);
    var cs := ApplySort(Cards(b, c), asc);
    assert ToggleSort(b, c) == WithCards(b1, c, cs);
    MapPermutation(IdOf, cs, Cards(b, c));
    forall x
      ensures Occurrences(WithCards(b1, c, cs), x) == Occurrences(b, x)
    {
      ReplaceColumnCount(b1, c, cs, x);
    }
  }

  /** Toggling twice restores the flag; a column that was sorted in its
      direction comes back with its titles in the original order. */
  lemma ToggleSortTwice(b: Board, c: ColumnId)
    ensures Ascending(ToggleSort(ToggleSort(b, c), c), c) == Ascending(b, c)
    ensures multiset(Cards(ToggleSort(ToggleSort(b, c), c), c)) == multiset(Cards(b, c))
    ensures Sorted(Cards(b, c), Ascending(b, c)) ==>
      Map(TitleOf, Cards(ToggleSort(ToggleSort(b, c), c), c)) == Map(TitleOf, Cards(b, c))
  {
    var r := ToggleSort(ToggleSort(b, c), c);
    var asc := Ascending(b, c);
    if Sorted(Cards(b, c), asc) {
      var xs, ys := Map(TitleOf, Cards(r, c)), Map(TitleOf, Cards(b, c));
      MapPermutation(TitleOf, Cards(r, c), Cards(b, c));
      assert SortedTitles(xs, asc) by {
        forall i, j | 0 <= i < j < |xs|
          ensures TitleLe(asc, xs[i], xs[j])
        {
          assert Before(asc, Cards(r, c)[i], Cards(r, c)[j]);
        }
      }
      assert SortedTitles(ys, asc) by {
        forall i, j | 0 <= i < j < |ys|
          ensures TitleLe(asc, ys[i], ys[j])
        {
          assert Before(asc, Cards(b, c)[i], Cards(b, c)[j]);
        }
      }
      SortedTitlesUnique(xs, ys, asc);
    }
  }

  /** Editing a card's text: the first card with `id` takes the trimmed
      text as its title, in place; nothing is re-sorted. */
  function RenameCard(b: Board, id: string, text: string): (r: Board)
    ensures Locate(b, id).None? ==> r == b
    ensures var p := Locate(b, id);
      p.Some? ==>
        var cs := Cards(r, p.value.column);
        var before := Cards(b, p.value.column)[p.value.index];
        && |cs| == |Cards(b, p.value.column)|
        && cs[p.value.index] == before.(title := Trim(text))
        && (forall k :: 0 <= k < |cs| && k != p.value.index ==> cs[k] == Cards(b, p.value.column)[k])
        && (forall d :: d != p.value.column ==> Cards(r, d) == Cards(b, d))
    ensures r.sortAscending == b.sortAscending
  {
    match Locate(b, id)
    case None => b
    case Some(p) =>
      var src := Cards(b, p.column);
      WithCards(b, p.column, src[p.index := src[p.index].(title := Trim(text))])
  }

  /** Renaming keeps every card id where it was. */
  lemma RenameCardIds(b: Board, id: string, text: string)
    ensures forall x :: Occurrences(RenameCard(b, id, text), x) == Occurrences(b, x)
    ensures UniqueIds(b) ==> UniqueIds(RenameCard(b, id, text))
  {
    var r := RenameCard(b, id, text);
    forall c
      ensures Map(IdOf, Cards(r, c)) == Map(IdOf, Cards(b, c))
    {
    }
  }

  /** What `render` does to a card: the enter, move and recolour markers
      are consumed, the remove marker is left alone. */
  function Settle(c: Card): (r: Card)
    ensures Plain(r) == Plain(c)
    ensures !r.marks.enter && r.marks.moved.None? && !r.marks.recolor
    ensures r.marks.remove == c.marks.remove
  {
    c.(marks := c.marks.(enter := false, moved := None, recolor := false))
  }

  /** `render`, as far as it changes the state. */
  function Render(b: Board): (r: Board)
    ensures forall c :: |Cards(r, c)| == |Cards(b, c)|
    ensures forall c, k :: 0 <= k < |Cards(b, c)| ==> Cards(r, c)[k] == Settle(Cards(b, c)[k])
    ensures r.sortAscending == b.sortAscending
  {
    Board(Map(Settle, b.todo), Map(Settle, b.doing), Map(Settle, b.done), b.sortAscending)
  }

  /** Rendering changes no card, only markers. */
  lemma RenderKeepsContent(b: Board)
    ensures Content(Render(b)) == Content(b)
    ensures forall x :: Occurrences(Render(b), x) == Occurrences(b, x)
  {
    forall c
      ensures Map(Plain, Cards(Render(b), c)) == Map(Plain, Cards(b, c))
      ensures Map(IdOf, Cards(Render(b), c)) == Map(IdOf, Cards(b, c))
    {
    }
  }

  /** A second render has nothing left to consume. */
  lemma RenderIdempotent(b: Board)
    ensures Render(Render(b)) == Render(b)
  {
    var r := Render(b);
    forall c
      ensures Cards(Render(r), c) == Cards(r, c)
    {
    }
    assert Render(r).todo == r.todo && Render(r).doing == r.doing && Render(r).done == r.done by {
      assert Cards(Render(r), Todo) == Cards(r, Todo);
      assert Cards(Render(r), Doing) == Cards(r, Doing);
      assert Cards(Render(r), Done) == Cards(r, Done);
    }
  }
}
