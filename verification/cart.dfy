/**
 * The cart panel's list of lines. Prices are whole grosze; `Number(...)`
 * of the item's price is done by the caller and passed in as `price`
 * (`None` when it is not a number), and the locale formatting of a price
 * is passed in as `formatted`.
 */
module Cart {
  import opened Wrappers
  import opened Seqs

  /** The detail of an `add-to-cart` event; `None` fields are `null` or
      missing. */
  datatype Item = Item(id: Option<string>, title: Option<string>, price: Option<int>,
                       priceText: Option<string>)

  /** One cart line. */
  datatype Line = Line(key: string, title: Option<string>, price: int, priceText: string, qty: int)

  /** `item.id ?? item.title ?? ''`: only a missing value falls through,
      an empty id does not. */
  function KeyOf(item: Item): (k: string)
    ensures item.id.Some? ==> k == item.id.value
    ensures item.id.None? && item.title.Some? ==> k == item.title.value
    ensures item.id.None? && item.title.None? ==> k == ""
  {
    match item.id
    case Some(id) => id
    case None => item.title.GetOr("")
  }

  /** `Number(item.price) || 0`: a non-number counts as 0. */
  function PriceOf(item: Item): (p: int)
    ensures item.price.Some? ==> p == item.price.value
    ensures item.price.None? ==> p == 0
  {
    item.price.GetOr(0)
  }

  predicate SameLine(l: Line, key: string, price: int)
  {
    l.key == key && l.price == price
  }

  /** No two lines share key and price, and every quantity is positive. */
  predicate WellFormed(ls: seq<Line>)
  {
    && (forall i :: 0 <= i < |ls| ==> ls[i].qty >= 1)
    && (forall i, j :: 0 <= i < j < |ls| ==> !SameLine(ls[j], ls[i].key, ls[i].price))
  }

  /** The `findIndex` of `addItem`. */
  function FindLine(ls: seq<Line>, key: string, price: int): (r: Option<nat>)
    ensures r.None? <==> forall k :: 0 <= k < |ls| ==> !SameLine(ls[k], key, price)
    ensures r.Some? ==> r.value < |ls| && SameLine(ls[r.value], key, price)
    ensures r.Some? ==> forall k :: 0 <= k < r.value ==> !SameLine(ls[k], key, price)
  {
    if ls == [] then None
    else if SameLine(ls[0], key, price) then Some(0)
    else match FindLine(ls[1..], key, price)
      case None => None
      case Some(i) => Some(i + 1)
  }

  /** `addItem`: a missing item is ignored; a line with the same key and
      price gains one; otherwise a line of quantity 1 is appended. */
  function AddItem(ls: seq<Line>, item: Option<Item>, formatted: string): (r: seq<Line>)
    ensures item.None? ==> r == ls
    ensures item.Some? ==> match FindLine(ls, KeyOf(item.value), PriceOf(item.value))
      case Some(i) => r == ls[i := ls[i].(qty := ls[i].qty + 1)]
      case None =>
        && |r| == |ls| + 1 && r[..|ls|] == ls
        && r[|ls|].key == KeyOf(item.value) && r[|ls|].price == PriceOf(item.value)
        && r[|ls|].title == item.value.title && r[|ls|].qty == 1
  {
    match item
    case None => ls
    case Some(it) =>
      var key := KeyOf(it);
      var price := PriceOf(it);
      match FindLine(ls, key, price)
      case Some(i) => ls[i := ls[i].(qty := ls[i].qty + 1)]
      case None =>
        var text := if it.priceText.Some? && it.priceText.value != "" then it.priceText.value else formatted;
        ls + [Line(key, it.title, price, text, 1)]
  }

  predicate InRange(ls: seq<Line>, index: int)
  {
    0 <= index < |ls|
  }

  /** `removeItem`: an index out of range does nothing. */
  function RemoveItem(ls: seq<Line>, index: int): (r: seq<Line>)
    ensures !InRange(ls, index) ==> r == ls
    ensures InRange(ls, index) ==> r == RemoveAt(ls, index)
  {
    if InRange(ls, index) then RemoveAt(ls, index) else ls
  }

  /** `increment`. */
  function Increment(ls: seq<Line>, index: int): (r: seq<Line>)
    ensures !InRange(ls, index) ==> r == ls
    ensures InRange(ls, index) ==> |r| == |ls| && r[index].qty == ls[index].qty + 1
    ensures InRange(ls, index) ==> r[index] == ls[index].(qty := r[index].qty)
    ensures forall k :: 0 <= k < |ls| && k != index ==> r[k] == ls[k]
  {
    if InRange(ls, index) then ls[index := ls[index].(qty := ls[index].qty + 1)] else ls
  }

  /** `decrement`: a line reaching zero is removed. */
  function Decrement(ls: seq<Line>, index: int): (r: seq<Line>)
    ensures !InRange(ls, index) ==> r == ls
    ensures InRange(ls, index) && ls[index].qty - 1 <= 0 ==> r == RemoveAt(ls, index)
    ensures InRange(ls, index) && ls[index].qty - 1 > 0 ==>
      r == ls[index := ls[index].(qty := ls[index].qty - 1)]
  {
    if !InRange(ls, index) then ls
    else if ls[index].qty - 1 <= 0 then RemoveAt(ls, index)
    else ls[index := ls[index].(qty := ls[index].qty - 1)]
  }

  function LineTotal(l: Line): int { l.price * l.qty }

  /** The sum `#render` shows, accumulated from the first line on. */
  function Total(ls: seq<Line>): int
  {
    if ls == [] then 0 else Total(ls[..|ls| - 1]) + LineTotal(ls[|ls| - 1])
  }

  lemma {:induction false} TotalAppend(a: seq<Line>, b: seq<Line>)
    ensures Total(a + b) == Total(a) + Total(b)
    decreases |b|
  {
    if b != [] {
      assert (a + b)[..|a + b| - 1] == a + b[..|b| - 1];
      TotalAppend(a, b[..|b| - 1]);
    } else {
      assert a + b == a;
    }
  }

  /** Splitting the total around one line. */
  lemma TotalAround(ls: seq<Line>, i: nat)
    requires i < |ls|
    ensures Total(ls) == Total(ls[..i]) + LineTotal(ls[i]) + Total(ls[i + 1..])
  {
    assert ls == ls[..i] + [ls[i]] + ls[i + 1..];
    TotalAppend(ls[..i] + [ls[i]], ls[i + 1..]);
    TotalAppend(ls[..i], [ls[i]]);
    assert Total([ls[i]]) == LineTotal(ls[i]) by {
      assert [ls[i]][..0] == [];
    }
  }

  lemma TotalUpdate(ls: seq<Line>, i: nat, l: Line)
    requires i < |ls|
    ensures Total(ls[i := l]) == Total(ls) - LineTotal(ls[i]) + LineTotal(l)
  {
    TotalAround(ls, i);
    TotalAround(ls[i := l], i);
    assert ls[i := l][..i] == ls[..i];
    assert ls[i := l][i + 1..] == ls[i + 1..];
  }

  lemma TotalRemove(ls: seq<Line>, i: nat)
    requires i < |ls|
    ensures Total(RemoveAt(ls, i)) == Total(ls) - LineTotal(ls[i])
  {
    TotalAround(ls, i);
    TotalAppend(ls[..i], ls[i + 1..]);
  }

  /** The empty cart totals nothing. */
  lemma TotalEmpty()
    ensures Total([]) == 0
  {
  }

  /** Adding an item raises the total by its price. */
  lemma AddItemTotal(ls: seq<Line>, item: Item, formatted: string)
    ensures Total(AddItem(ls, Some(item), formatted)) == Total(ls) + PriceOf(item)
  {
    var r := AddItem(ls, Some(item), formatted);
    match FindLine(ls, KeyOf(item), PriceOf(item))
    case Some(i) =>
      LineTotalStep(ls[i]);
      TotalUpdate(ls, i, ls[i].(qty := ls[i].qty + 1));
    case None =>
      assert r == ls + [r[|ls|]];
      TotalAppend(ls, [r[|ls|]]);
      assert Total([r[|ls|]]) == LineTotal(r[|ls|]) by {
        assert [r[|ls|]][..0] == [];
      }
  }

  lemma RemoveItemTotal(ls: seq<Line>, index: int)
    ensures InRange(ls, index) ==> Total(RemoveItem(ls, index)) == Total(ls) - LineTotal(ls[index])
    ensures !InRange(ls, index) ==> Total(RemoveItem(ls, index)) == Total(ls)
  {
    if InRange(ls, index) {
      TotalRemove(ls, index);
    }
  }

  lemma IncrementTotal(ls: seq<Line>, index: int)
    ensures InRange(ls, index) ==> Total(Increment(ls, index)) == Total(ls) + ls[index].price
    ensures !InRange(ls, index) ==> Total(Increment(ls, index)) == Total(ls)
  {
    if InRange(ls, index) {
      IncrementInRangeTotal(ls, index);
    }
  }

  lemma IncrementInRangeTotal(ls: seq<Line>, index: nat)
    requires index < |ls|
    ensures Total(Increment(ls, index)) == Total(ls) + ls[index].price
  {
    var l := ls[index];
    var l' := l.(qty := l.qty + 1);
    IncrementUpdates(ls, index);
    LineTotalStep(l);
    TotalUpdate(ls, index, l');
  }

  lemma IncrementUpdates(ls: seq<Line>, index: nat)
    requires index < |ls|
    ensures Increment(ls, index) == ls[index := ls[index].(qty := ls[index].qty + 1)]
  {
    assert InRange(ls, index);
  }

  lemma LineTotalStep(l: Line)
    ensures LineTotal(l.(qty := l.qty + 1)) == LineTotal(l) + l.price
  {
    assert l.price * (l.qty + 1) == l.price * l.qty + l.price;
  }

  /** On a well-formed cart a decrement lowers the total by the line's
      price, whether the line stays or goes. */
  lemma DecrementTotal(ls: seq<Line>, index: int)
    requires WellFormed(ls)
    ensures InRange(ls, index) ==> Total(Decrement(ls, index)) == Total(ls) - ls[index].price
    ensures !InRange(ls, index) ==> Total(Decrement(ls, index)) == Total(ls)
  {
    if InRange(ls, index) {
      assert ls[index].qty >= 1;
      if ls[index].qty == 1 {
        DecrementLastTotal(ls, index);
      } else {
        DecrementKeptTotal(ls, index);
      }
    }
  }

  lemma DecrementLastTotal(ls: seq<Line>, index: nat)
    requires index < |ls| && ls[index].qty == 1
    ensures Total(Decrement(ls, index)) == Total(ls) - ls[index].price
  {
    assert Decrement(ls, index) == RemoveAt(ls, index);
    TotalRemove(ls, index);
  }

  lemma DecrementKeptTotal(ls: seq<Line>, index: nat)
    requires index < |ls| && ls[index].qty > 1
    ensures Total(Decrement(ls, index)) == Total(ls) - ls[index].price
  {
    var l := ls[index];
    assert Decrement(ls, index) == ls[index := l.(qty := l.qty - 1)];
    assert LineTotal(l.(qty := l.qty - 1)) == LineTotal(l) - l.price by {
      assert l.price * (l.qty - 1) == l.price * l.qty - l.price;
    }
    TotalUpdate(ls, index, l.(qty := l.qty - 1));
  }

  /** Every operation keeps the lines distinct with positive quantities. */
  lemma AddItemWellFormed(ls: seq<Line>, item: Option<Item>, formatted: string)
    requires WellFormed(ls)
    ensures WellFormed(AddItem(ls, item, formatted))
  {
  }

  lemma RemoveItemWellFormed(ls: seq<Line>, index: int)
    requires WellFormed(ls)
    ensures WellFormed(RemoveItem(ls, index))
  {
    if InRange(ls, index) {
      var r := RemoveItem(ls, index);
      forall i, j | 0 <= i < j < |r|
        ensures !SameLine(r[j], r[i].key, r[i].price)
      {
        var i' := if i < index then i else i + 1;
        var j' := if j < index then j else j + 1;
        assert r[i] == ls[i'] && r[j] == ls[j'];
      }
    }
  }

  lemma IncrementWellFormed(ls: seq<Line>, index: int)
    requires WellFormed(ls)
    ensures WellFormed(Increment(ls, index))
  {
  }

  lemma DecrementWellFormed(ls: seq<Line>, index: int)
    requires WellFormed(ls)
    ensures WellFormed(Decrement(ls, index))
  {
    if InRange(ls, index) && ls[index].qty - 1 <= 0 {
      RemoveItemWellFormed(ls, index);
    }
  }

  /** Adding the same item twice gives one line of quantity 2. */
  lemma AddItemTwice(ls: seq<Line>, item: Item, formatted: string)
    requires FindLine(ls, KeyOf(item), PriceOf(item)).None?
    ensures var r := AddItem(AddItem(ls, Some(item), formatted), Some(item), formatted);
      && |r| == |ls| + 1 && r[..|ls|] == ls
      && r[|ls|].key == KeyOf(item) && r[|ls|].qty == 2
  {
    var once := AddItem(ls, Some(item), formatted);
    assert FindLine(once, KeyOf(item), PriceOf(item)) == Some(|ls|);
  }
}
