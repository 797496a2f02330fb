/**
 * The shape store: a list of shapes with add, remove and recolour-by-type,
 * per-type counts, and topic subscribers that are told about every change
 * after the list has been saved.
 *
 * Callbacks are identified by a number; calling one is recorded as a
 * `Delivered` effect, and writing local storage as a `Saved` effect, in the
 * order the store performs them. Colours from the caller's colour function
 * are passed in as the sequence of values it returns.
 */
module ShapeStore {
  import opened Wrappers
  import opened Seqs

  /** A shape as the page creates it: `{id, type, color}`. */
  datatype Shape = Shape(id: string, kind: string, color: string)

  datatype Counts = Counts(squares: nat, circles: nat)

  /** One entry of the `updated` list of a recolour change. */
  datatype Recolored = Recolored(id: string, color: string)

  /** The `change` field of a notification. */
  datatype Change =
    | Init
    | Added(shape: Shape)
    | Removed(id: string)
    | RecoloredType(kind: string, updated: seq<Recolored>)

  /** What a subscriber receives. `value` is the state's field named by
      the topic; only `shapes` exists. */
  datatype Payload = Payload(value: Option<seq<Shape>>, change: Change, counts: Counts)

  datatype Effect = Saved(shapes: seq<Shape>) | Delivered(callback: nat, payload: Payload)

  /** The shapes, and for each topic its callbacks in registration order
      (a `Set`, so without repetitions). */
  datatype Store = Store(shapes: seq<Shape>, subscribers: map<string, seq<nat>>)

  /** The store after an operation, and what the operation did outside it. */
  datatype Outcome = Outcome(store: Store, effects: seq<Effect>)

  const ShapesTopic := "shapes"

  function ShapeId(s: Shape): string { s.id }

  function ShapeColor(s: Shape): string { s.color }

  function RecoloredId(u: Recolored): string { u.id }

  /** The shapes of `kind`, in list order. */
  function Matching(ss: seq<Shape>, kind: string): (r: seq<Shape>)
    ensures |r| <= |ss|
    ensures forall k :: 0 <= k < |r| ==> r[k].kind == kind
  {
    if ss == [] then []
    else if ss[0].kind == kind then [ss[0]] + Matching(ss[1..], kind)
    else Matching(ss[1..], kind)
  }

  /** `Matching` keeps exactly the shapes of `kind`. */
  lemma {:induction false} MatchingMembers(ss: seq<Shape>, kind: string)
    ensures forall s :: s in Matching(ss, kind) <==> s in ss && s.kind == kind
  {
    if ss != [] {
      MatchingMembers(ss[1..], kind);
      assert ss == [ss[0]] + ss[1..];
    }
  }

  lemma {:induction false} MatchingAppend(a: seq<Shape>, b: seq<Shape>, kind: string)
    ensures Matching(a + b, kind) == Matching(a, kind) + Matching(b, kind)
  {
    if a == [] {
      assert a + b == b;
    } else {
      assert (a + b)[1..] == a[1..] + b;
      MatchingAppend(a[1..], b, kind);
    }
  }

  /** `getCounts`: shapes of any other type are counted nowhere. */
  function GetCounts(ss: seq<Shape>): (r: Counts)
    ensures r.squares == |Matching(ss, "square")|
    ensures r.circles == |Matching(ss, "circle")|
    ensures r.squares + r.circles <= |ss|
  {
    if ss == [] then Counts(0, 0)
    else
      var rest := GetCounts(ss[1..]);
      if ss[0].kind == "square" then rest.(squares := rest.squares + 1)
      else if ss[0].kind == "circle" then rest.(circles := rest.circles + 1)
      else rest
  }

  function Value(st: Store, topic: string): (v: Option<seq<Shape>>)
    ensures v.Some? <==> topic == ShapesTopic
    ensures v.Some? ==> v.value == st.shapes
  {
    if topic == ShapesTopic then Some(st.shapes) else None
  }

  predicate Distinct(cbs: seq<nat>)
  {
    forall i, j :: 0 <= i < j < |cbs| ==> cbs[i] != cbs[j]
  }

  /** Every topic's callbacks are free of repetitions. */
  predicate Valid(st: Store)
  {
    forall t :: t in st.subscribers ==> Distinct(st.subscribers[t])
  }

  /** `Set.prototype.add`: appended unless already present. */
  function AddCallback(cbs: seq<nat>, cb: nat): (r: seq<nat>)
    ensures cb in cbs ==> r == cbs
    ensures cb !in cbs ==> r == cbs + [cb]
    ensures Distinct(cbs) ==> Distinct(r)
  {
    if cb in cbs then cbs else cbs + [cb]
  }

  /** `Set.prototype.delete`: the others keep their order. */
  function RemoveCallback(cbs: seq<nat>, cb: nat): (r: seq<nat>)
    ensures cb !in r
    ensures forall x :: x in r <==> x in cbs && x != cb
    ensures Distinct(cbs) ==> Distinct(r)
    ensures cb !in cbs ==> r == cbs
  {
    if cbs == [] then []
    else if cbs[0] == cb then RemoveCallback(cbs[1..], cb)
    else
      var rest := RemoveCallback(cbs[1..], cb);
      assert Distinct(cbs) ==> cbs[0] !in cbs[1..];
      [cbs[0]] + rest
  }

  /** `delete` works element by element, so the survivors keep their
      order on either side of a split. */
  lemma {:induction false} RemoveCallbackAppend(a: seq<nat>, b: seq<nat>, cb: nat)
    ensures RemoveCallback(a + b, cb) == RemoveCallback(a, cb) + RemoveCallback(b, cb)
  {
    if a == [] {
      assert a + b == b;
    } else {
      assert (a + b)[1..] == a[1..] + b;
      RemoveCallbackAppend(a[1..], b, cb);
      if a[0] != cb {
        ConcatAssoc([a[0]], RemoveCallback(a[1..], cb), RemoveCallback(b, cb));
      }
    }
  }

  /** In a distinct list, deleting the callback at position `i` is
      `RemoveAt(cbs, i)`: everything before and after it stays in place. */
  lemma RemoveCallbackAt(cbs: seq<nat>, cb: nat, i: nat)
    requires Distinct(cbs) && i < |cbs| && cbs[i] == cb
    ensures RemoveCallback(cbs, cb) == RemoveAt(cbs, i)
  {
    var before, after := cbs[..i], cbs[i + 1..];
    assert cbs == before + ([cb] + after);
    DistinctAbsent(cbs, i);
    RemoveCallbackAppend(before, [cb] + after, cb);
    RemoveCallbackAppend([cb], after, cb);
    assert [cb][1..] == [];
  }

  /** In a distinct list the element at `i` occurs nowhere else. */
  lemma DistinctAbsent(cbs: seq<nat>, i: nat)
    requires Distinct(cbs) && i < |cbs|
    ensures cbs[i] !in cbs[..i] && cbs[i] !in cbs[i + 1..]
  {
    var before, after := cbs[..i], cbs[i + 1..];
    forall k | 0 <= k < |before|
      ensures before[k] != cbs[i]
    {
      assert before[k] == cbs[k];
    }
    forall k | 0 <= k < |after|
      ensures after[k] != cbs[i]
    {
      assert after[k] == cbs[i + 1 + k];
    }
  }

  lemma {:induction false} RemoveAfterAdd(cbs: seq<nat>, cb: nat)
    requires cb !in cbs
    ensures RemoveCallback(AddCallback(cbs, cb), cb) == cbs
  {
    if cbs == [] {
      assert AddCallback(cbs, cb) == [cb];
    } else {
      assert AddCallback(cbs, cb)[1..] == AddCallback(cbs[1..], cb);
      RemoveAfterAdd(cbs[1..], cb);
    }
  }

  /** `subscribe`: registers `cb` under `topic` and calls it once with the
      `init` change. */
  function Subscribe(st: Store, topic: string, cb: nat): (r: Outcome)
    ensures topic in r.store.subscribers && cb in r.store.subscribers[topic]
    ensures r.store.shapes == st.shapes
    ensures forall t :: t != topic ==> (t in r.store.subscribers <==> t in st.subscribers)
    ensures forall t :: t != topic && t in st.subscribers ==> r.store.subscribers[t] == st.subscribers[t]
    ensures Valid(st) ==> Valid(r.store)
    ensures r.effects == [Delivered(cb, Payload(Value(st, topic), Init, GetCounts(st.shapes)))]
  {
    var cbs := if topic in st.subscribers then st.subscribers[topic] else [];
    Outcome(st.(subscribers := st.subscribers[topic := AddCallback(cbs, cb)]),
            [Delivered(cb, Payload(Value(st, topic), Init, GetCounts(st.shapes)))])
  }

  /** The function `subscribe` returns. Its topic is always registered,
      since `subscribe` created it. */
  function Unsubscribe(st: Store, topic: string, cb: nat): (r: Store)
    requires topic in st.subscribers
    ensures topic in r.subscribers && cb !in r.subscribers[topic]
    ensures forall x :: x in r.subscribers[topic] <==> x in st.subscribers[topic] && x != cb
    ensures r.shapes == st.shapes && r.subscribers.Keys == st.subscribers.Keys
    ensures forall t :: t in st.subscribers && t != topic ==> r.subscribers[t] == st.subscribers[t]
    ensures Valid(st) ==> Valid(r)
  {
    st.(subscribers := st.subscribers[topic := RemoveCallback(st.subscribers[topic], cb)])
  }

  /** In a valid store, unsubscribing takes the callback out of its place
      and the remaining subscribers keep their registration order, which
      is the order `Notify` delivers in. */
  lemma UnsubscribeKeepsOrder(st: Store, topic: string, cb: nat, i: nat)
    requires Valid(st) && topic in st.subscribers
    requires i < |st.subscribers[topic]| && st.subscribers[topic][i] == cb
    ensures Unsubscribe(st, topic, cb).subscribers[topic] == RemoveAt(st.subscribers[topic], i)
  {
    RemoveCallbackAt(st.subscribers[topic], cb, i);
  }

  /** Subscribing a new callback and then calling the function returned
      leaves the callback lists as they were, up to the topic now having an
      entry. */
  lemma SubscribeUnsubscribe(st: Store, topic: string, cb: nat)
    requires topic in st.subscribers ==> cb !in st.subscribers[topic]
    ensures var r := Unsubscribe(Subscribe(st, topic, cb).store, topic, cb);
      && r.shapes == st.shapes
      && r.subscribers[topic] == (if topic in st.subscribers then st.subscribers[topic] else [])
      && (forall t :: t != topic ==> (t in r.subscribers <==> t in st.subscribers))
      && (forall t :: t != topic && t in st.subscribers ==> r.subscribers[t] == st.subscribers[t])
  {
    RemoveAfterAdd(if topic in st.subscribers then st.subscribers[topic] else [], cb);
  }

  /** `#notify`: nothing for a topic nobody subscribed to; otherwise one
      delivery per callback, in registration order, all of one payload. */
  function Notify(st: Store, topic: string, change: Change): (r: seq<Effect>)
    ensures topic !in st.subscribers ==> r == []
    ensures topic in st.subscribers ==> |r| == |st.subscribers[topic]|
    ensures topic in st.subscribers ==> forall k :: 0 <= k < |r| ==>
      r[k] == Delivered(st.subscribers[topic][k], Payload(Value(st, topic), change, GetCounts(st.shapes)))
  {
    if topic !in st.subscribers then []
    else
      var payload := Payload(Value(st, topic), change, GetCounts(st.shapes));
      Map((cb: nat) => Delivered(cb, payload), st.subscribers[topic])
  }

  /** `#save`: the list projected to `{id, type, color}`. */
  function SaveShapes(ss: seq<Shape>): (r: seq<Shape>)
    ensures |r| == |ss|
    ensures forall k :: 0 <= k < |ss| ==>
      r[k].id == ss[k].id && r[k].kind == ss[k].kind && r[k].color == ss[k].color
  {
    Map((s: Shape) => Shape(s.id, s.kind, s.color), ss)
  }

  /** `#persistAndNotify`: the save comes before every delivery. */
  function PersistAndNotify(st: Store, topic: string, change: Change): (r: seq<Effect>)
    ensures |r| >= 1 && r[0] == Saved(SaveShapes(st.shapes))
    ensures r[1..] == Notify(st, topic, change)
    ensures forall k :: 1 <= k < |r| ==> r[k].Delivered?
  {
    [Saved(SaveShapes(st.shapes))] + Notify(st, topic, change)
  }

  /** `addShape`: appended at the end, announced as `add`. */
  function AddShape(st: Store, shape: Shape): (r: Outcome)
    ensures r.store.shapes == st.shapes + [shape]
    ensures r.store.subscribers == st.subscribers
    ensures r.effects == PersistAndNotify(r.store, ShapesTopic, Added(shape))
  {
    var next := st.(shapes := st.shapes + [shape]);
    Outcome(next, PersistAndNotify(next, ShapesTopic, Added(shape)))
  }

  /** Adding a shape raises the count of its type by one. */
  lemma AddShapeCounts(st: Store, shape: Shape)
    ensures var before := GetCounts(st.shapes);
      var after := GetCounts(AddShape(st, shape).store.shapes);
      && after.squares == before.squares + (if shape.kind == "square" then 1 else 0)
      && after.circles == before.circles + (if shape.kind == "circle" then 1 else 0)
  {
    MatchingAppend(st.shapes, [shape], "square");
    MatchingAppend(st.shapes, [shape], "circle");
  }

  /** `findIndex` on the id. */
  function FirstWithId(ss: seq<Shape>, id: string): (r: Option<nat>)
    ensures r.None? <==> forall k :: 0 <= k < |ss| ==> ss[k].id != id
    ensures r.Some? ==> r.value < |ss| && ss[r.value].id == id
    ensures r.Some? ==> forall k :: 0 <= k < r.value ==> ss[k].id != id
  {
    if ss == [] then None
    else if ss[0].id == id then Some(0)
    else match FirstWithId(ss[1..], id)
      case None => None
      case Some(i) => Some(i + 1)
  }

  /** `removeShape`: the first shape with `id` goes, announced as
      `remove`; an unknown id changes nothing and tells no one. */
  function RemoveShape(st: Store, id: string): (r: Outcome)
    ensures FirstWithId(st.shapes, id).None? ==> r == Outcome(st, [])
    ensures var i := FirstWithId(st.shapes, id);
      i.Some? ==>
        && r.store.shapes == RemoveAt(st.shapes, i.value)
        && r.store.subscribers == st.subscribers
        && r.effects == PersistAndNotify(r.store, ShapesTopic, Removed(id))
  {
    match FirstWithId(st.shapes, id)
    case None => Outcome(st, [])
    case Some(i) =>
      var next := st.(shapes := RemoveAt(st.shapes, i));
      Outcome(next, PersistAndNotify(next, ShapesTopic, Removed(id)))
  }

  /** The recolouring loop of `recolorType`: each shape of `kind` in turn
      takes the next colour, and is reported in `updated`. */
  function Recolor(ss: seq<Shape>, kind: string, colors: seq<string>): (r: (seq<Shape>, seq<Recolored>))
    requires |colors| == |Matching(ss, kind)|
    ensures |r.0| == |ss| && |r.1| == |colors|
    ensures forall k :: 0 <= k < |ss| ==> r.0[k].id == ss[k].id && r.0[k].kind == ss[k].kind
    ensures forall k :: 0 <= k < |ss| && ss[k].kind != kind ==> r.0[k] == ss[k]
    ensures forall j :: 0 <= j < |r.1| ==> r.1[j].color == colors[j]
  {
    if ss == [] then ([], [])
    else if ss[0].kind == kind then
      var t := Recolor(ss[1..], kind, colors[1..]);
      var s := ss[0].(color := colors[0]);
      ([s] + t.0, [Recolored(s.id, s.color)] + t.1)
    else
      var t := Recolor(ss[1..], kind, colors);
      ([ss[0]] + t.0, t.1)
  }

  /** After recolouring, the shapes of `kind` carry the given colours, in
      order. */
  lemma {:induction false} RecolorColors(ss: seq<Shape>, kind: string, colors: seq<string>)
    requires |colors| == |Matching(ss, kind)|
    ensures Map(ShapeColor, Matching(Recolor(ss, kind, colors).0, kind)) == colors
  {
    if ss != [] {
      var r := Recolor(ss, kind, colors).0;
      if ss[0].kind == kind {
        var t := Recolor(ss[1..], kind, colors[1..]).0;
        RecolorColors(ss[1..], kind, colors[1..]);
        assert r == [r[0]] + t;
        MatchingConsColors(r[0], t, kind);
        assert colors == [colors[0]] + colors[1..];
      } else {
        var t := Recolor(ss[1..], kind, colors).0;
        RecolorColors(ss[1..], kind, colors);
        assert r == [r[0]] + t;
        assert Matching(r, kind) == Matching(t, kind);
      }
    }
  }

  /** The colours of the matching shapes of `[x] + t`, for `x` of `kind`. */
  lemma MatchingConsColors(x: Shape, t: seq<Shape>, kind: string)
    requires x.kind == kind
    ensures Map(ShapeColor, Matching([x] + t, kind)) == [x.color] + Map(ShapeColor, Matching(t, kind))
  {
    assert ([x] + t)[1..] == t;
    MapAppend(ShapeColor, [x], Matching(t, kind));
  }

  /** Recolouring keeps the shapes of `kind` the same shapes, in order. */
  lemma {:induction false} RecolorIds(ss: seq<Shape>, kind: string, colors: seq<string>)
    requires |colors| == |Matching(ss, kind)|
    ensures Map(ShapeId, Matching(Recolor(ss, kind, colors).0, kind)) == Map(ShapeId, Matching(ss, kind))
  {
    if ss != [] {
      var r := Recolor(ss, kind, colors).0;
      if ss[0].kind == kind {
        var t := Recolor(ss[1..], kind, colors[1..]).0;
        RecolorIds(ss[1..], kind, colors[1..]);
        assert r[1..] == t;
        assert Matching(r, kind) == [r[0]] + Matching(t, kind);
      } else {
        var t := Recolor(ss[1..], kind, colors).0;
        RecolorIds(ss[1..], kind, colors);
        assert r[1..] == t;
      }
    }
  }

  /** `updated` names exactly the shapes of `kind`, in list order. */
  lemma {:induction false} RecolorUpdated(ss: seq<Shape>, kind: string, colors: seq<string>)
    requires |colors| == |Matching(ss, kind)|
    ensures Map(RecoloredId, Recolor(ss, kind, colors).1) == Map(ShapeId, Matching(ss, kind))
  {
    if ss != [] {
      var u := Recolor(ss, kind, colors).1;
      if ss[0].kind == kind {
        var t := Recolor(ss[1..], kind, colors[1..]).1;
        RecolorUpdated(ss[1..], kind, colors[1..]);
        assert u == [Recolored(ss[0].id, colors[0])] + t;
        MapAppend(RecoloredId, [Recolored(ss[0].id, colors[0])], t);
        MapAppend(ShapeId, [ss[0]], Matching(ss[1..], kind));
      } else {
        RecolorUpdated(ss[1..], kind, colors);
      }
    }
  }

  /** `recolorType`: notifies only when some shape was recoloured. */
  function RecolorType(st: Store, kind: string, colors: seq<string>): (r: Outcome)
    requires |colors| == |Matching(st.shapes, kind)|
    ensures r.store.subscribers == st.subscribers
    ensures |r.store.shapes| == |st.shapes|
    ensures forall k :: 0 <= k < |st.shapes| && st.shapes[k].kind != kind ==> r.store.shapes[k] == st.shapes[k]
    ensures colors == [] ==> r == Outcome(st.(shapes := r.store.shapes), [])
    ensures colors != [] ==>
      r.effects == PersistAndNotify(r.store, ShapesTopic, RecoloredType(kind, Recolor(st.shapes, kind, colors).1))
  {
    var (shapes, updated) := Recolor(st.shapes, kind, colors);
    var next := st.(shapes := shapes);
    if |updated| > 0 then Outcome(next, PersistAndNotify(next, ShapesTopic, RecoloredType(kind, updated)))
    else Outcome(next, [])
  }

  /** With no shape of `kind`, recolouring leaves the list as it was. */
  lemma RecolorNoneMatching(ss: seq<Shape>, kind: string)
    requires Matching(ss, kind) == []
    ensures Recolor(ss, kind, []).0 == ss
  {
    var r := Recolor(ss, kind, []).0;
    MatchingMembers(ss, kind);
    forall k | 0 <= k < |ss|
      ensures r[k] == ss[k]
    {
      assert ss[k] in ss;
    }
  }

  /** What local storage held, as `JSON.parse` saw it: `shapes` is `None`
      when it is not an array; an element is `None` when it is falsy or not
      an object. */
  datatype Stored = Missing | Malformed | Parsed(shapes: Option<seq<Option<Shape>>>)

  /** The filter of `#load`: a truthy id and a known type. */
  predicate Loadable(e: Option<Shape>)
  {
    e.Some? && e.value.id != "" && (e.value.kind == "square" || e.value.kind == "circle")
  }

  /** `filter` keeps order and multiplicity: one entry more at the end
      adds exactly that shape, if it is loadable. */
  lemma {:induction false} LoadFilterAppend(es: seq<Option<Shape>>, e: Option<Shape>)
    ensures LoadFilter(es + [e]) == LoadFilter(es) + (if Loadable(e) then [e.value] else [])
  {
    if es == [] {
      assert es + [e] == [e];
      assert [e][1..] == [];
    } else {
      assert (es + [e])[1..] == es[1..] + [e];
      LoadFilterAppend(es[1..], e);
      if Loadable(es[0]) {
        ConcatAssoc([es[0].value], LoadFilter(es[1..]), if Loadable(e) then [e.value] else []);
      }
    }
  }

  function LoadFilter(es: seq<Option<Shape>>): (r: seq<Shape>)
    ensures |r| <= |es|
    ensures forall s :: s in r <==> Some(s) in es && Loadable(Some(s))
  {
    if es == [] then []
    else if Loadable(es[0]) then [es[0].value] + LoadFilter(es[1..])
    else LoadFilter(es[1..])
  }

  /** The store the constructor builds. */
  function Load(stored: Stored): (r: Store)
    ensures r.subscribers == map[]
    ensures stored.Parsed? && stored.shapes.Some? ==> r.shapes == LoadFilter(stored.shapes.value)
    ensures !(stored.Parsed? && stored.shapes.Some?) ==> r.shapes == []
    ensures forall s :: s in r.shapes ==> Loadable(Some(s))
  {
    if stored.Parsed? && stored.shapes.Some? then Store(LoadFilter(stored.shapes.value), map[])
    else Store([], map[])
  }

  function Entry(s: Shape): Option<Shape> { Some(s) }

  /** Loading what was saved gives back a list of well-formed shapes. */
  lemma SaveLoadRoundTrip(ss: seq<Shape>)
    requires forall k :: 0 <= k < |ss| ==> Loadable(Some(ss[k]))
    ensures Load(Parsed(Some(Map(Entry, SaveShapes(ss))))).shapes == ss
  {
    assert SaveShapes(ss) == ss;
    LoadAllLoadable(ss);
  }

  lemma {:induction false} LoadAllLoadable(ss: seq<Shape>)
    requires forall k :: 0 <= k < |ss| ==> Loadable(Some(ss[k]))
    ensures LoadFilter(Map(Entry, ss)) == ss
  {
    if ss != [] {
      assert Map(Entry, ss)[1..] == Map(Entry, ss[1..]);
      LoadAllLoadable(ss[1..]);
    }
  }
}
