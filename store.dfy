/** The portfolio store: three insertion-ordered sections held in App state,
    and the pure updaters that the load, add and delete handlers pass to
    `setPortfolioData`. */
module Store {
  import opened Wire

  datatype Section = Works | Certifications | Blog

  /** The `portfolioData` state object. */
  datatype Portfolio = Portfolio(works: seq<Item>, certifications: seq<Item>, blog: seq<Item>)
  {
    /** `portfolioData[section]` */
    function Get(s: Section): seq<Item>
    {
      match s
      case Works => works
      case Certifications => certifications
      case Blog => blog
    }

    /** `{ ...portfolioData, [section]: items }` */
    function Put(s: Section, items: seq<Item>): (r: Portfolio)
      ensures r.Get(s) == items
      ensures forall t :: t != s ==> r.Get(t) == Get(t)
    {
      match s
      case Works => this.(works := items)
      case Certifications => this.(certifications := items)
      case Blog => this.(blog := items)
    }
  }

  /** The initial `portfolioData`: every section empty. */
  const EMPTY := Portfolio([], [], [])

  /* ---------------------------------------------------------------- load */

  /** `items.map(item => ({ ...item, id: item._id }))` */
  function Normalize(items: seq<Item>): (r: seq<Item>)
    ensures |r| == |items|
    ensures forall i :: 0 <= i < |items| ==> r[i] == WithId(items[i])
  {
    if items == [] then [] else [WithId(items[0])] + Normalize(items[1..])
  }

  /** The three fetches the load issues, one per section. */
  datatype Fetched = Fetched(works: Fetch, certifications: Fetch, blog: Fetch)
  {
    function Get(s: Section): Fetch
    {
      match s
      case Works => works
      case Certifications => certifications
      case Blog => blog
    }
  }

  /** The array a load fetch yields, or None when the fetch rejects, the
      body is not JSON, or it is JSON without `.map` (`null`, a scalar or an
      object). */
  function ArrayOf(f: Fetch): Option<seq<Element>>
  {
    match f
    case Resolved(Response(_, Array(elems))) => Some(elems)
    case _ => None
  }

  /** `{ ...e }` for one array element, as the `.map` callback reads it, or
      None when reading `e._id` throws because `e` is `null`. */
  function Spread(e: Element): Option<Item>
  {
    match e
    case Entry(fields) => Some(fields)
    case NullEntry => None
    case ScalarEntry => Some(map[])
  }

  /** The objects the `.map` callback sees for each element, or None when
      the callback throws on some element. */
  function Objects(elems: seq<Element>): (r: Option<seq<Item>>)
    ensures r.Some? <==> NullEntry !in elems
    ensures r.Some? ==> |r.value| == |elems| && forall i :: 0 <= i < |elems| ==> Spread(elems[i]) == Some(r.value[i])
  {
    if elems == [] then Some([])
    else match (Spread(elems[0]), Objects(elems[1..]))
      case (Some(x), Some(xs)) => Some([x] + xs)
      case _ =>
        assert elems == [elems[0]] + elems[1..];
        None
  }

  /** The records of one section's fetch, or None when a step throws. */
  function Loadable(f: Fetch): Option<seq<Item>>
  {
    match ArrayOf(f)
    case None => None
    case Some(elems) => Objects(elems)
  }

  /** The new `portfolioData` of a load, or None when the `try` block
      throws and the state is left as it was. Every section is replaced at
      once, each by its own fetch. */
  function LoadResult(f: Fetched): (r: Option<Portfolio>)
    ensures r.Some? <==> forall t :: Loadable(f.Get(t)).Some?
    ensures r.Some? ==> forall t :: r.value.Get(t) == Normalize(Loadable(f.Get(t)).value)
  {
    assert f.Get(Works) == f.works && f.Get(Certifications) == f.certifications && f.Get(Blog) == f.blog;
    match (Loadable(f.works), Loadable(f.certifications), Loadable(f.blog))
    case (Some(w), Some(c), Some(b)) => Some(Portfolio(Normalize(w), Normalize(c), Normalize(b)))
    case _ => None
  }

  /** A load succeeds iff every section's fetch yields an array without a
      `null` element; then each section has the length and order of its
      array, an object element keeps every field and gets `id` set to its
      `_id`, and a scalar element becomes `{ id: undefined }`. */
  lemma LoadSection(f: Fetched, s: Section)
    ensures LoadResult(f).Some? <==>
      forall t :: ArrayOf(f.Get(t)).Some? && NullEntry !in ArrayOf(f.Get(t)).value
    ensures LoadResult(f).Some? ==>
      var elems, loaded := ArrayOf(f.Get(s)).value, LoadResult(f).value.Get(s);
      && |loaded| == |elems|
      && forall i :: 0 <= i < |elems| ==>
           && (elems[i].Entry? ==>
                 && Field(loaded[i], "id") == Field(elems[i].fields, "_id")
                 && loaded[i].Keys == elems[i].fields.Keys + {"id"}
                 && forall k :: k in elems[i].fields && k != "id" ==> loaded[i][k] == elems[i].fields[k])
           && (elems[i] == ScalarEntry ==> loaded[i] == map["id" := Undefined])
  {
    if LoadResult(f).Some? {
      var elems := ArrayOf(f.Get(s)).value;
      var objects := Loadable(f.Get(s)).value;
      assert Objects(elems) == Some(objects);
      assert forall i :: 0 <= i < |elems| ==> Spread(elems[i]) == Some(objects[i]);
    }
  }

  /* ----------------------------------------------------------------- add */

  /** How `handleAddItem` ends for the POST outcome `f`. */
  datatype Saving =
    | Caught                      // a step of the `try` throws; `catch` logs it
    | Saved(item: Item)           // the updater appends `item`
    | NullSaved                   // the body is `null`: the updater throws

  /** A rejected POST or a body that is not JSON throws inside the `try`. A
      `null` body does not: `savedItem._id` is read inside the updater passed
      to `setPortfolioData`, which React runs when it renders App, outside
      the `try`. An object body yields `{ ...savedItem, id: savedItem._id }`;
      a scalar body spreads to `{}`; an array body spreads to its index keys,
      which this model does not keep. */
  function SavingOf(f: Fetch): (r: Saving)
    ensures r == Caught <==> f.Rejected? || f.response.body == Unparseable
    ensures r == NullSaved <==> f.Resolved? && f.response.body == Null
    ensures f.Resolved? && f.response.body.Object? ==> r == Saved(WithId(f.response.body.fields))
    ensures f.Resolved? && f.response.body == Scalar ==> r == Saved(map["id" := Undefined])
  {
    match f
    case Rejected => Caught
    case Resolved(Response(_, body)) =>
      match body
      case Unparseable => Caught
      case Null => NullSaved
      case Scalar => Saved(WithId(map[]))
      case Object(fields) => Saved(WithId(fields))
      case Array(_) => Saved(WithId(map[]))
  }

  /** The effect of an add on the store: nothing, a new store, or an error
      thrown while rendering, which no error boundary catches. */
  datatype AddResult = Unchanged | Appended(data: Portfolio) | RenderError

  /** The updater of `handleAddItem`: one item appended to section `s`, the
      other sections untouched; a step that throws inside the `try` leaves
      everything as is; a `null` body makes the render throw. */
  function AfterAdd(p: Portfolio, s: Section, f: Fetch): (r: AddResult)
    ensures r == Unchanged <==> SavingOf(f) == Caught
    ensures r == RenderError <==> SavingOf(f) == NullSaved
    ensures SavingOf(f).Saved? ==>
      && r.Appended?
      && |r.data.Get(s)| == |p.Get(s)| + 1
      && r.data.Get(s)[..|p.Get(s)|] == p.Get(s)
      && r.data.Get(s)[|p.Get(s)|] == SavingOf(f).item
    ensures r.Appended? ==> forall t :: t != s ==> r.data.Get(t) == p.Get(t)
  {
    match SavingOf(f)
    case Caught => Unchanged
    case NullSaved => RenderError
    case Saved(item) => Appended(p.Put(s, p.Get(s) + [item]))
  }

  /** A created object that the backend returns with an `_id` is appended
      with every one of its fields and with `id` equal to that `_id`. */
  lemma AddKeepsFields(p: Portfolio, s: Section, status: int, created: Item)
    ensures AfterAdd(p, s, Resolved(Response(status, Object(created)))).Appended?
    ensures
      var added := AfterAdd(p, s, Resolved(Response(status, Object(created)))).data.Get(s);
      && |added| == |p.Get(s)| + 1
      && Field(added[|p.Get(s)|], "id") == Field(created, "_id")
      && forall k :: k in created && k != "id" ==> added[|p.Get(s)|][k] == created[k]
  {
  }

  /* -------------------------------------------------------------- delete */

  /** `items.filter(item => item.id !== id)` */
  function Without(items: seq<Item>, id: Value): (r: seq<Item>)
    ensures |r| <= |items|
    ensures forall x :: x in r ==> x in items && Field(x, "id") != id
  {
    if items == [] then []
    else if Field(items[0], "id") != id then [items[0]] + Without(items[1..], id)
    else Without(items[1..], id)
  }

  /** The survivors are exactly the items whose id differs. */
  lemma {:induction false} WithoutKeeps(items: seq<Item>, id: Value, x: Item)
    ensures x in Without(items, id) <==> x in items && Field(x, "id") != id
  {
    if items != [] && x != items[0] {
      WithoutKeeps(items[1..], id, x);
      assert x in items <==> x in items[1..];
    }
  }

  /** WithoutKeeps for every item at once. */
  lemma WithoutKeepsAll(items: seq<Item>, id: Value)
    ensures forall x :: x in Without(items, id) <==> x in items && Field(x, "id") != id
  {
    forall x {
      WithoutKeeps(items, id, x);
    }
  }

  /** The number of items of `items` whose `id` is `id`. */
  function Carrying(items: seq<Item>, id: Value): nat
  {
    if items == [] then 0
    else (if Field(items[0], "id") == id then 1 else 0) + Carrying(items[1..], id)
  }

  /** The filter drops exactly the items that carry the id. */
  lemma {:induction false} WithoutCount(items: seq<Item>, id: Value)
    ensures |Without(items, id)| + Carrying(items, id) == |items|
  {
    if items != [] {
      WithoutCount(items[1..], id);
    }
  }

  /** Filtering keeps relative order: it distributes over concatenation. */
  lemma {:induction false} WithoutAppend(a: seq<Item>, b: seq<Item>, id: Value)
    ensures Without(a + b, id) == Without(a, id) + Without(b, id)
  {
    if a == [] {
      assert a + b == b;
    } else {
      assert (a + b)[1..] == a[1..] + b;
      WithoutAppend(a[1..], b, id);
    }
  }

  /** A one-item section keeps its item iff the ids differ. Together with
      WithoutAppend this determines the filter on every sequence. */
  lemma WithoutSingle(x: Item, id: Value)
    ensures Without([x], id) == if Field(x, "id") != id then [x] else []
  {
    assert [x][1..] == [];
  }

  /** Deleting an id that no item carries changes nothing. */
  lemma {:induction false} WithoutAbsent(items: seq<Item>, id: Value)
    requires forall x :: x in items ==> Field(x, "id") != id
    ensures Without(items, id) == items
  {
    if items != [] {
      assert forall x :: x in items[1..] ==> x in items;
      WithoutAbsent(items[1..], id);
      assert [items[0]] + items[1..] == items;
    }
  }

  /** Deleting the same id twice is the same as deleting it once. */
  lemma WithoutIdempotent(items: seq<Item>, id: Value)
    ensures Without(Without(items, id), id) == Without(items, id)
  {
    WithoutAbsent(Without(items, id), id);
  }

  /** The updater of `handleDeleteItem`. Any resolved response, whatever its
      status or body, drops every item of section `s` whose `id` equals `id`;
      only a rejected fetch leaves the store as it is. */
  function AfterDelete(p: Portfolio, s: Section, id: Value, f: Fetch): (r: Portfolio)
    ensures f.Rejected? ==> r == p
    ensures f.Resolved? ==> r.Get(s) == Without(p.Get(s), id)
    ensures f.Resolved? ==> forall x :: x in r.Get(s) <==> x in p.Get(s) && Field(x, "id") != id
    ensures forall t :: t != s ==> r.Get(t) == p.Get(t)
  {
    match f
    case Rejected => p
    case Resolved(_) =>
      WithoutKeepsAll(p.Get(s), id);
      p.Put(s, Without(p.Get(s), id))
  }

  /** Deleting the id of an item that was just added, when no earlier item of
      that section carried the same id, restores the section as it was. */
  lemma AddThenDelete(p: Portfolio, s: Section, added: Fetch, deleted: Fetch)
    requires SavingOf(added).Saved?
    requires forall x :: x in p.Get(s) ==> Field(x, "id") != Field(SavingOf(added).item, "id")
    requires deleted.Resolved?
    ensures AfterAdd(p, s, added).Appended?
    ensures AfterDelete(AfterAdd(p, s, added).data, s, Field(SavingOf(added).item, "id"), deleted) == p
  {
    var item := SavingOf(added).item;
    var id := Field(item, "id");
    var q := AfterAdd(p, s, added).data;
    assert q.Get(s) == p.Get(s) + [item];
    WithoutAppend(p.Get(s), [item], id);
    WithoutAbsent(p.Get(s), id);
    WithoutSingle(item, id);
    assert Without(q.Get(s), id) == p.Get(s);
  }

  /** Neither updater looks at the HTTP status: two resolved responses that
      differ only in status have the same effect. */
  lemma StatusIgnored(p: Portfolio, s: Section, id: Value, body: Reply, status1: int, status2: int)
    ensures AfterAdd(p, s, Resolved(Response(status1, body))) == AfterAdd(p, s, Resolved(Response(status2, body)))
    ensures AfterDelete(p, s, id, Resolved(Response(status1, body))) == AfterDelete(p, s, id, Resolved(Response(status2, body)))
  {
  }
}
