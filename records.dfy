/** _PBSobject: the record every query returns.  A record has a name and a
    dictionary of attribute values; the views (job, node, queue, server) add
    read-only queries on top of it. */
module Records {
  import opened Base

  /** A stored attribute value: the raw string (old data structure), a list
      of strings (new data structure), or a nested record built by
      class_func(tmp_d) for resource, status and event maps. */
  datatype Value = Str(s: string) | List(items: seq<string>) | Obj(rec: PbsObject)

  /** A _PBSobject: the name attribute and the UserDict data. */
  datatype PbsObject = PbsObject(name: Option<Value>, data: map<string, Value>)

  /** A record with no name and no data: class_func(). */
  const Empty := PbsObject(None, map[])

  /** _PBSobject(dictin): a 'name' entry of dictin becomes the record's name
      and leaves the data; every other entry stays. */
  function FromDict(dictin: map<string, Value>): (o: PbsObject)
    ensures "name" !in o.data
    ensures forall k :: k in dictin && k != "name" ==> k in o.data && o.data[k] == dictin[k]
    ensures o.data.Keys == dictin.Keys - {"name"}
    ensures o.name.Some? <==> "name" in dictin
    ensures o.name.Some? ==> o.name.value == dictin["name"]
  {
    if "name" in dictin then PbsObject(Some(dictin["name"]), dictin - {"name"})
    else PbsObject(None, dictin)
  }

  /** The dictionary a record was built from: its data with the name put back. */
  function AsDict(o: PbsObject): map<string, Value>
  {
    if o.name.Some? then o.data["name" := o.name.value] else o.data
  }

  /** Building a record loses nothing: its dictionary is the one it was
      built from. */
  lemma FromDictAsDict(dictin: map<string, Value>)
    ensures AsDict(FromDict(dictin)) == dictin
  {
    var o := FromDict(dictin);
    assert AsDict(o).Keys == dictin.Keys;
  }

  /** get_value: the stored value, or None when the key is absent. */
  function GetValue(o: PbsObject, key: string): (r: Option<Value>)
    ensures r.Some? <==> key in o.data
    ensures r.Some? ==> r.value == o.data[key]
  {
    if key in o.data then Some(o.data[key]) else None
  }

  /** return_value: the first element of a list, any other value itself;
      self[key] raises KeyError for an absent key and [0] raises IndexError
      on an empty list. */
  function ReturnValue(o: PbsObject, key: string): Result<Value>
  {
    if key !in o.data then Err(KeyError)
    else match o.data[key]
      case List(xs) => if |xs| == 0 then Err(IndexError) else Ok(Str(xs[0]))
      case v => Ok(v)
  }

  /** return_value does not depend on the data structure: a scalar stored as
      the raw string (old) or as the head of a list (new) reads the same. */
  lemma ReturnValueEitherShape(o: PbsObject, key: string, x: string, rest: seq<string>)
    ensures ReturnValue(PbsObject(o.name, o.data[key := Str(x)]), key) == Ok(Str(x))
    ensures ReturnValue(PbsObject(o.name, o.data[key := List([x] + rest)]), key) == Ok(Str(x))
  {
  }

  /** return_value(key) == expected, the comparison every view predicate
      makes; the exceptions of return_value pass through. */
  function FirstValueIs(o: PbsObject, key: string, expected: string): (r: Result<bool>)
    ensures r.Err? <==> ReturnValue(o, key).Err?
    ensures r.Err? ==> r.error == ReturnValue(o, key).error
    ensures r.Ok? ==> (r.value <==> ReturnValue(o, key) == Ok(Str(expected)))
  {
    match ReturnValue(o, key)
    case Err(e) => Err(e)
    case Ok(v) => Ok(v == Str(expected))
  }

  predicate NoDuplicates(xs: seq<string>)
  {
    forall i, j :: 0 <= i < j < |xs| ==> xs[i] != xs[j]
  }

  function Elements(xs: seq<string>): set<string>
  {
    set i | 0 <= i < |xs| :: xs[i]
  }

  lemma ElementsSnoc(xs: seq<string>, x: string)
    ensures Elements(xs + [x]) == Elements(xs) + {x}
  {
    assert forall i :: 0 <= i < |xs| ==> (xs + [x])[i] == xs[i];
    assert (xs + [x])[|xs|] == x;
  }

  /** The items of xs at their first occurrence, in order: xs[i] is kept
      exactly when it does not occur in xs[..i].  This is the result of the
      "if x not in res: res.append(x)" loops of the views. */
  function FirstSeen(xs: seq<string>): (r: seq<string>)
    ensures NoDuplicates(r)
    ensures Elements(r) == Elements(xs)
    decreases |xs|
  {
    if |xs| == 0 then []
    else
      var init := xs[..|xs| - 1];
      var x := xs[|xs| - 1];
      assert xs == init + [x];
      ElementsSnoc(init, x);
      if x in init then
        assert x in Elements(init);
        FirstSeen(init)
      else
        assert x !in Elements(init);
        ElementsSnoc(FirstSeen(init), x);
        FirstSeen(init) + [x]
  }

  /** One more step of a first-seen loop: the next item is appended unless
      it was already kept. */
  lemma FirstSeenSnoc(xs: seq<string>, x: string)
    ensures FirstSeen(xs + [x]) == if x in FirstSeen(xs) then FirstSeen(xs) else FirstSeen(xs) + [x]
  {
    assert (xs + [x])[..|xs|] == xs;
    assert x in FirstSeen(xs) <==> x in Elements(FirstSeen(xs));
    assert x in xs <==> x in Elements(xs);
  }

  /** uniq: the distinct items of a list.  The source collects them as the
      keys of a dictionary, whose order Python 2 leaves unspecified, so the
      order here is left open as well. */
  method Uniq(xs: seq<string>) returns (r: seq<string>)
    ensures NoDuplicates(r)
    ensures Elements(r) == Elements(xs)
  {
    var items: map<string, int> := map[];
    for i := 0 to |xs|
      invariant items.Keys == Elements(xs[..i])
    {
      assert xs[..i + 1] == xs[..i] + [xs[i]];
      ElementsSnoc(xs[..i], xs[i]);
      items := items[xs[i] := 1];
    }
    assert xs[..|xs|] == xs;
    r := [];
    var left := items.Keys;
    while left != {}
      invariant left <= items.Keys
      invariant Elements(r) + left == items.Keys
      invariant Elements(r) !! left
      invariant NoDuplicates(r)
      decreases left
    {
      var x :| x in left;
      ElementsSnoc(r, x);
      r := r + [x];
      left := left - {x};
    }
  }
}
