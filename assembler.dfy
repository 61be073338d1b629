/** _list_2_dict: turns the raw status records of the batch server into
    records.  Every attribute of a raw item is merged into the item's record
    under one of four grammars: the old data structure (the raw string under
    "name.resource" or "name"), a plain list, a resource sub-record, or the
    nested status/Variable_List record with its event and error entries.

    An exception leaves the record as far as it got: the source stores the
    record in the result map before filling it, so the map holds the partial
    record when the exception propagates. */
module Assembler {
  import opened Base
  import PyStr
  import Splitter
  import opened Records

  /** One attribute of a raw record: its name, its resource ("" when the
      server sent none) and its value. */
  datatype Attrib = Attrib(name: string, resource: string, value: string)

  /** One raw record of a status reply: the object's name and attributes. */
  datatype RawItem = RawItem(name: string, attribs: seq<Attrib>)

  /** A record as far as it got, and the exception that stopped it, if any. */
  datatype Partial = Partial(rec: PbsObject, err: Option<PyError>)

  /** The result map as far as it got, and the exception, if any. */
  datatype Table = Table(d: map<string, PbsObject>, err: Option<PyError>)

  /** new[key] = v. */
  function Put(rec: PbsObject, key: string, v: Value): PbsObject
  {
    PbsObject(rec.name, rec.data[key := v])
  }

  /** values in the new data structure: the comma tokens of the raw value,
      or the raw value itself when there is exactly one token. */
  function CommaValues(raw: string): seq<string>
  {
    var ts := Splitter.Split(raw, ',');
    if |ts| == 1 then [raw] else ts
  }

  /** new[key][sub] = v: a missing key raises KeyError, and only a record
      accepts item assignment (a list or string raises TypeError). */
  function SetIn(rec: PbsObject, key: string, sub: string, v: Value): (r: Result<PbsObject>)
    ensures r.Ok? <==> key in rec.data && rec.data[key].Obj?
    ensures r.Err? ==> r.error == (if key in rec.data then TypeError else KeyError)
  {
    if key !in rec.data then Err(KeyError)
    else match rec.data[key]
      case Obj(o) => Ok(Put(rec, key, Obj(Put(o, sub, v))))
      case _ => Err(TypeError)
  }

  /** "if new.has_key(key): new[key][sub] = v, else new[key] =
      class_func({sub: v})": the sub-record is created when absent and
      otherwise updated in place; either way the record's other entries and
      the sub-record's other entries stay as they were.  A fresh sub-record
      built from {'name': v} takes v as its name instead. */
  function Nest(rec: PbsObject, key: string, sub: string, v: Value): (r: Result<PbsObject>)
    ensures r.Err? <==> key in rec.data && !rec.data[key].Obj?
    ensures r.Err? ==> r.error == TypeError
    ensures r.Ok? ==> r.value.name == rec.name
    ensures r.Ok? ==> r.value.data.Keys == rec.data.Keys + {key}
    ensures r.Ok? ==> forall k :: k in rec.data && k != key ==> r.value.data[k] == rec.data[k]
    ensures r.Ok? ==> r.value.data[key].Obj?
    ensures r.Ok? && (key in rec.data || sub != "name") ==>
      sub in r.value.data[key].rec.data && r.value.data[key].rec.data[sub] == v
    ensures r.Ok? && key in rec.data ==>
      forall k :: k in rec.data[key].rec.data && k != sub ==>
        k in r.value.data[key].rec.data && r.value.data[key].rec.data[k] == rec.data[key].rec.data[k]
    ensures r.Ok? && key in rec.data ==>
      && r.value.data[key].rec.name == rec.data[key].rec.name
      && r.value.data[key].rec.data.Keys == rec.data[key].rec.data.Keys + {sub}
    ensures r.Ok? && key !in rec.data ==> r.value.data[key].rec == FromDict(map[sub := v])
  {
    if key in rec.data then SetIn(rec, key, sub, v)
    else Ok(Put(rec, key, Obj(FromDict(map[sub := v]))))
  }

  /** The event loop: every segment "k=v1=v2..." sets new['event'][k] to
      [v1, v2, ...]; a missing or non-record event entry stops it. */
  function AddEvents(rec: PbsObject, segs: seq<string>): (p: Partial)
    ensures p.rec.name == rec.name
    decreases |segs|
  {
    if |segs| == 0 then Partial(rec, None)
    else
      var kv := PyStr.Split(segs[0], '=');
      match SetIn(rec, "event", kv[0], List(kv[1..]))
      case Err(e) => Partial(rec, Some(e))
      case Ok(r) => AddEvents(r, segs[1..])
  }

  /** The entries a run of event segments describes, a later segment
      overriding an earlier one with the same key. */
  function EventMap(segs: seq<string>): map<string, Value>
    decreases |segs|
  {
    if |segs| == 0 then map[]
    else
      var kv := PyStr.Split(segs[0], '=');
      map[kv[0] := List(kv[1..])] + EventMap(segs[1..])
  }

  /** The segments after the first ':' of a status token. */
  function EventSegments(v: string): seq<string>
  {
    PyStr.Split(v, ':')[1..]
  }

  /** One comma token v of a status or Variable_List value, split on '='
      outside parentheses into tmp_l:
        message=EVENT:...  replaces new['event'] by the token's events;
        message=...        sets new['error'] to the pieces after message;
        EVENT:...          adds the token's events to new['event'];
        key=...            sets new[attr][key] to the pieces after key.
      tmp_l[0] and tmp_l[1] raise IndexError when the split is too short. */
  function StatusToken(rec: PbsObject, attr: string, v: string): (p: Partial)
    ensures p.rec.name == rec.name
  {
    var tmp := Splitter.Split(v, '=');
    if |tmp| == 0 then Partial(rec, Some(IndexError))
    else if tmp[0] == "message" then
      if |tmp| < 2 then Partial(rec, Some(IndexError))
      else if PyStr.StartsWith(tmp[1], "EVENT:") then
        AddEvents(Put(rec, "event", Obj(Empty)), EventSegments(v))
      else Partial(Put(rec, "error", List(tmp[1..])), None)
    else if PyStr.StartsWith(tmp[0], "EVENT:") then
      AddEvents(rec, EventSegments(v))
    else match Nest(rec, attr, tmp[0], List(tmp[1..]))
      case Err(e) => Partial(rec, Some(e))
      case Ok(r) => Partial(r, None)
  }

  /** The loop over the comma tokens of a status or Variable_List value. */
  function MergeStatus(rec: PbsObject, attr: string, vs: seq<string>): (p: Partial)
    ensures p.rec.name == rec.name
    decreases |vs|
  {
    if |vs| == 0 then Partial(rec, None)
    else
      var p := StatusToken(rec, attr, vs[0]);
      if p.err.Some? then p else MergeStatus(p.rec, attr, vs[1..])
  }

  /** The key of an attribute in the old data structure. */
  function OldKey(a: Attrib): string
  {
    if a.resource != "" then a.name + "." + a.resource else a.name
  }

  /** Merging one attribute into a record. */
  function MergeAttrib(rec: PbsObject, a: Attrib, oldStructure: bool): (p: Partial)
    ensures p.rec.name == rec.name
  {
    if oldStructure then Partial(Put(rec, OldKey(a), Str(a.value)), None)
    else
      var values := CommaValues(a.value);
      if a.name == "status" || a.name == "Variable_List" then MergeStatus(rec, a.name, values)
      else if a.resource != "" then
        match Nest(rec, a.name, a.resource, List(values))
        case Err(e) => Partial(rec, Some(e))
        case Ok(r) => Partial(r, None)
      else Partial(Put(rec, a.name, List(values)), None)
  }

  /** The loop over the attributes of one raw item. */
  function MergeAttribs(rec: PbsObject, attribs: seq<Attrib>, oldStructure: bool): (p: Partial)
    ensures p.rec.name == rec.name
    decreases |attribs|
  {
    if |attribs| == 0 then Partial(rec, None)
    else
      var p := MergeAttrib(rec, attribs[0], oldStructure);
      if p.err.Some? then p else MergeAttribs(p.rec, attribs[1..], oldStructure)
  }

  /** The record of one raw item: a fresh record named after the item, with
      every attribute merged in order. */
  function Record(item: RawItem, oldStructure: bool): (p: Partial)
    ensures p.rec.name == Some(Str(item.name))
  {
    MergeAttribs(PbsObject(Some(Str(item.name)), map[]), item.attribs, oldStructure)
  }

  /** The loop over the raw items, from the map built so far: each item's
      record replaces any earlier one of the same name. */
  function AssembleFrom(d: map<string, PbsObject>, items: seq<RawItem>, oldStructure: bool): Table
    decreases |items|
  {
    if |items| == 0 then Table(d, None)
    else
      var p := Record(items[0], oldStructure);
      var d' := d[items[0].name := p.rec];
      if p.err.Some? then Table(d', p.err) else AssembleFrom(d', items[1..], oldStructure)
  }

  /** self.d after _list_2_dict(items), and the exception it raised, if any. */
  function Assemble(items: seq<RawItem>, oldStructure: bool): Table
  {
    AssembleFrom(map[], items, oldStructure)
  }

  // ------------------------------------------------------------ the loops

  /** The event loop of _list_2_dict. */
  method ApplyEvents(rec: PbsObject, segs: seq<string>) returns (p: Partial)
    ensures p == AddEvents(rec, segs)
  {
    var cur := rec;
    assert segs[0..] == segs;
    for i := 0 to |segs|
      invariant AddEvents(cur, segs[i..]) == AddEvents(rec, segs)
    {
      assert segs[i..][0] == segs[i] && segs[i..][1..] == segs[i + 1..];
      var kv := PyStr.Split(segs[i], '=');
      var r := SetIn(cur, "event", kv[0], List(kv[1..]));
      if r.Err? {
        return Partial(cur, Some(r.error));
      }
      cur := r.value;
    }
    assert segs[|segs|..] == [];
    p := Partial(cur, None);
  }

  /** The body of the loop over the comma tokens of a status value. */
  method ApplyStatusToken(rec: PbsObject, attr: string, v: string) returns (p: Partial)
    ensures p == StatusToken(rec, attr, v)
  {
    var tmp := Splitter.Split(v, '=');
    if |tmp| == 0 {
      return Partial(rec, Some(IndexError));
    }
    if tmp[0] == "message" {
      if |tmp| < 2 {
        return Partial(rec, Some(IndexError));
      }
      if PyStr.StartsWith(tmp[1], "EVENT:") {
        p := ApplyEvents(Put(rec, "event", Obj(Empty)), EventSegments(v));
      } else {
        p := Partial(Put(rec, "error", List(tmp[1..])), None);
      }
    } else if PyStr.StartsWith(tmp[0], "EVENT:") {
      p := ApplyEvents(rec, EventSegments(v));
    } else {
      var r := Nest(rec, attr, tmp[0], List(tmp[1..]));
      if r.Err? {
        return Partial(rec, Some(r.error));
      }
      p := Partial(r.value, None);
    }
  }

  /** The loop over the comma tokens of a status or Variable_List value. */
  method ApplyStatus(rec: PbsObject, attr: string, vs: seq<string>) returns (p: Partial)
    ensures p == MergeStatus(rec, attr, vs)
  {
    var cur := rec;
    assert vs[0..] == vs;
    for i := 0 to |vs|
      invariant MergeStatus(cur, attr, vs[i..]) == MergeStatus(rec, attr, vs)
    {
      assert vs[i..][0] == vs[i] && vs[i..][1..] == vs[i + 1..];
      var q := ApplyStatusToken(cur, attr, vs[i]);
      if q.err.Some? {
        return q;
      }
      cur := q.rec;
    }
    assert vs[|vs|..] == [];
    p := Partial(cur, None);
  }

  /** The body of the loop over the attributes of a raw item. */
  method ApplyAttrib(rec: PbsObject, a: Attrib, oldStructure: bool) returns (p: Partial)
    ensures p == MergeAttrib(rec, a, oldStructure)
  {
    if oldStructure {
      var key := if a.resource != "" then a.name + "." + a.resource else a.name;
      return Partial(Put(rec, key, Str(a.value)), None);
    }
    var values := CommaValues(a.value);
    if a.name == "status" || a.name == "Variable_List" {
      p := ApplyStatus(rec, a.name, values);
    } else if a.resource != "" {
      var r := Nest(rec, a.name, a.resource, List(values));
      if r.Err? {
        return Partial(rec, Some(r.error));
      }
      p := Partial(r.value, None);
    } else {
      p := Partial(Put(rec, a.name, List(values)), None);
    }
  }

  /** The loop over the attributes of one raw item, from a fresh record. */
  method BuildRecord(item: RawItem, oldStructure: bool) returns (p: Partial)
    ensures p == Record(item, oldStructure)
  {
    var rec := PbsObject(Some(Str(item.name)), map[]);
    var attribs := item.attribs;
    assert attribs[0..] == attribs;
    for i := 0 to |attribs|
      invariant MergeAttribs(rec, attribs[i..], oldStructure) == Record(item, oldStructure)
    {
      assert attribs[i..][0] == attribs[i] && attribs[i..][1..] == attribs[i + 1..];
      var q := ApplyAttrib(rec, attribs[i], oldStructure);
      if q.err.Some? {
        return q;
      }
      rec := q.rec;
    }
    assert attribs[|attribs|..] == [];
    p := Partial(rec, None);
  }

  // ------------------------------------------------------------ properties

  /** The stored list keeps the whole value: joining it with ',' gives back
      the raw value whenever the comma splitter reproduces it (in particular
      when its single token is the value with a trailing delimiter). */
  lemma CommaValuesJoin(raw: string)
    requires Splitter.Splittable(raw, ',')
    ensures PyStr.Join(CommaValues(raw), ',') == raw
  {
    Splitter.JoinSplitIff(raw, ',');
  }

  /** A value with no comma and no parenthesis is stored as the one-element
      list [value], unchanged. */
  lemma CommaValuesWhole(raw: string)
    requires |raw| > 0 && ',' !in raw && '(' !in raw
    ensures CommaValues(raw) == [raw]
  {
    Splitter.PlainToken(raw, ',');
    Splitter.SplitJoin([raw], ',');
  }

  /** A value made of several tokens is stored as those tokens. */
  lemma CommaValuesOfTokens(ts: seq<string>)
    requires Splitter.AllTokens(ts, ',') && |ts| != 1
    ensures CommaValues(PyStr.Join(ts, ',')) == ts
  {
    Splitter.SplitJoin(ts, ',');
  }

  lemma {:induction false} MergeAttribsSnoc(rec: PbsObject, attribs: seq<Attrib>, a: Attrib, oldStructure: bool)
    ensures MergeAttribs(rec, attribs + [a], oldStructure) ==
      var p := MergeAttribs(rec, attribs, oldStructure);
      if p.err.Some? then p else MergeAttrib(p.rec, a, oldStructure)
    decreases |attribs|
  {
    if |attribs| == 0 {
      assert attribs + [a] == [a];
      assert [a][1..] == [];
    } else {
      assert (attribs + [a])[1..] == attribs[1..] + [a];
      var p := MergeAttrib(rec, attribs[0], oldStructure);
      if p.err.None? {
        MergeAttribsSnoc(p.rec, attribs[1..], a, oldStructure);
      }
    }
  }

  /** A plain attribute overwrites whatever an earlier attribute of the same
      name stored: after it, the record holds its value list (new data
      structure) or its raw value under its old key (old data structure). */
  lemma {:induction false} PlainAttribLastWins(rec: PbsObject, attribs: seq<Attrib>, a: Attrib)
    requires a.resource == "" && a.name != "status" && a.name != "Variable_List"
    requires MergeAttribs(rec, attribs, false).err.None?
    ensures MergeAttribs(rec, attribs + [a], false).err.None?
    ensures a.name in MergeAttribs(rec, attribs + [a], false).rec.data
    ensures MergeAttribs(rec, attribs + [a], false).rec.data[a.name] == List(CommaValues(a.value))
  {
    MergeAttribsSnoc(rec, attribs, a, false);
  }

  /** In the old data structure an attribute stores its raw string under
      "name.resource", or "name" without a resource, overwriting any earlier
      value; no attribute fails. */
  lemma {:induction false} OldAttribLastWins(rec: PbsObject, attribs: seq<Attrib>, a: Attrib)
    ensures MergeAttribs(rec, attribs + [a], true).err.None?
    ensures OldKey(a) in MergeAttribs(rec, attribs + [a], true).rec.data
    ensures MergeAttribs(rec, attribs + [a], true).rec.data[OldKey(a)] == Str(a.value)
    ensures OldKey(a) == if a.resource == "" then a.name else a.name + "." + a.resource
  {
    OldNeverFails(rec, attribs);
    MergeAttribsSnoc(rec, attribs, a, true);
  }

  lemma {:induction false} OldNeverFails(rec: PbsObject, attribs: seq<Attrib>)
    ensures MergeAttribs(rec, attribs, true).err.None?
    decreases |attribs|
  {
    if |attribs| > 0 {
      OldNeverFails(MergeAttrib(rec, attribs[0], true).rec, attribs[1..]);
    }
  }

  /** A resource attribute (new data structure) lands in the sub-record of
      its name under its resource: the sub-record is created when absent,
      other resources and other attributes stay as they were, and a name
      already holding a list fails with TypeError, leaving the record as is. */
  lemma ResourceAttrib(rec: PbsObject, a: Attrib)
    requires a.resource != "" && a.name != "status" && a.name != "Variable_List"
    ensures var p := MergeAttrib(rec, a, false);
      && (p.err.None? <==> a.name !in rec.data || rec.data[a.name].Obj?)
      && (p.err.Some? ==> p.err == Some(TypeError) && p.rec == rec)
      && (p.err.None? ==> p.rec.name == rec.name && p.rec.data.Keys == rec.data.Keys + {a.name})
      && (p.err.None? ==> forall k :: k in rec.data && k != a.name ==> k in p.rec.data && p.rec.data[k] == rec.data[k])
      && (p.err.None? && (a.name in rec.data || a.resource != "name") ==>
            a.name in p.rec.data && p.rec.data[a.name].Obj? &&
            a.resource in p.rec.data[a.name].rec.data &&
            p.rec.data[a.name].rec.data[a.resource] == List(CommaValues(a.value)))
      && (p.err.None? && a.name in rec.data ==>
            forall k :: k in rec.data[a.name].rec.data && k != a.resource ==>
              k in p.rec.data[a.name].rec.data && p.rec.data[a.name].rec.data[k] == rec.data[a.name].rec.data[k])
      && (p.err.None? && a.name in rec.data ==>
            p.rec.data[a.name].rec.name == rec.data[a.name].rec.name &&
            p.rec.data[a.name].rec.data.Keys == rec.data[a.name].rec.data.Keys + {a.resource})
      && (p.err.None? && a.name !in rec.data ==>
            p.rec.data[a.name].rec == FromDict(map[a.resource := List(CommaValues(a.value))]))
  {
  }

  /** The records in the map are named after their keys, also when an
      exception stopped the loop. */
  predicate NamedByKey(d: map<string, PbsObject>)
  {
    forall k :: k in d ==> d[k].name == Some(Str(k))
  }

  lemma {:induction false} AssembleFromNamed(d: map<string, PbsObject>, items: seq<RawItem>, oldStructure: bool)
    requires NamedByKey(d)
    ensures NamedByKey(AssembleFrom(d, items, oldStructure).d)
    decreases |items|
  {
    if |items| > 0 {
      var p := Record(items[0], oldStructure);
      var d' := d[items[0].name := p.rec];
      assert NamedByKey(d');
      if p.err.None? {
        AssembleFromNamed(d', items[1..], oldStructure);
      }
    }
  }

  /** Each record in self.d carries its key as its name. */
  lemma AssembleNamed(items: seq<RawItem>, oldStructure: bool)
    ensures NamedByKey(Assemble(items, oldStructure).d)
  {
    AssembleFromNamed(map[], items, oldStructure);
  }

  function ItemNames(items: seq<RawItem>): set<string>
  {
    set i | 0 <= i < |items| :: items[i].name
  }

  lemma {:induction false} AssembleFromKeys(d: map<string, PbsObject>, items: seq<RawItem>, oldStructure: bool)
    requires AssembleFrom(d, items, oldStructure).err.None?
    ensures AssembleFrom(d, items, oldStructure).d.Keys == d.Keys + ItemNames(items)
    decreases |items|
  {
    if |items| > 0 {
      var p := Record(items[0], oldStructure);
      var d' := d[items[0].name := p.rec];
      AssembleFromKeys(d', items[1..], oldStructure);
      assert ItemNames(items) == {items[0].name} + ItemNames(items[1..]) by {
        forall x | x in ItemNames(items) ensures x in {items[0].name} + ItemNames(items[1..]) {
          var i :| 0 <= i < |items| && items[i].name == x;
          if i > 0 { assert items[1..][i - 1] == items[i]; }
        }
        forall x | x in ItemNames(items[1..]) ensures x in ItemNames(items) {
          var i :| 0 <= i < |items[1..]| && items[1..][i].name == x;
          assert items[i + 1] == items[1..][i];
        }
      }
    }
  }

  /** Without an exception self.d holds exactly one record per item name. */
  lemma AssembleKeys(items: seq<RawItem>, oldStructure: bool)
    requires Assemble(items, oldStructure).err.None?
    ensures Assemble(items, oldStructure).d.Keys == ItemNames(items)
  {
    AssembleFromKeys(map[], items, oldStructure);
  }

  lemma {:induction false} AssembleFromKeeps(d: map<string, PbsObject>, items: seq<RawItem>, oldStructure: bool, k: string)
    requires k in d
    requires forall j :: 0 <= j < |items| ==> items[j].name != k
    ensures k in AssembleFrom(d, items, oldStructure).d
    ensures AssembleFrom(d, items, oldStructure).d[k] == d[k]
    decreases |items|
  {
    if |items| > 0 {
      var p := Record(items[0], oldStructure);
      var d' := d[items[0].name := p.rec];
      if p.err.None? {
        forall j | 0 <= j < |items[1..]| ensures items[1..][j].name != k {
          assert items[1..][j] == items[j + 1];
        }
        AssembleFromKeeps(d', items[1..], oldStructure, k);
      }
    }
  }

  lemma {:induction false} AssembleFromLastWins(d: map<string, PbsObject>, items: seq<RawItem>, oldStructure: bool, i: nat)
    requires i < |items|
    requires forall j :: i < j < |items| ==> items[j].name != items[i].name
    requires AssembleFrom(d, items, oldStructure).err.None?
    ensures items[i].name in AssembleFrom(d, items, oldStructure).d
    ensures AssembleFrom(d, items, oldStructure).d[items[i].name] == Record(items[i], oldStructure).rec
    decreases i
  {
    var p := Record(items[0], oldStructure);
    var d' := d[items[0].name := p.rec];
    assert p.err.None?;
    if i == 0 {
      forall j | 0 <= j < |items[1..]| ensures items[1..][j].name != items[0].name {
        assert items[1..][j] == items[j + 1];
      }
      AssembleFromKeeps(d', items[1..], oldStructure, items[0].name);
    } else {
      forall j | i - 1 < j < |items[1..]| ensures items[1..][j].name != items[1..][i - 1].name {
        assert items[1..][j] == items[j + 1];
      }
      AssembleFromLastWins(d', items[1..], oldStructure, i - 1);
    }
  }

  /** A later item of the same name wins: the record under a name is the
      one built from the last item carrying it. */
  lemma AssembleLastWins(items: seq<RawItem>, oldStructure: bool, i: nat)
    requires i < |items|
    requires forall j :: i < j < |items| ==> items[j].name != items[i].name
    requires Assemble(items, oldStructure).err.None?
    ensures items[i].name in Assemble(items, oldStructure).d
    ensures Assemble(items, oldStructure).d[items[i].name] == Record(items[i], oldStructure).rec
  {
    AssembleFromLastWins(map[], items, oldStructure, i);
  }

  lemma UpdateThenUnion(m: map<string, Value>, k: string, v: Value, e: map<string, Value>)
    ensures m[k := v] + e == m + (map[k := v] + e)
  {
  }

  /** The event loop adds the entries of its segments to an existing event
      record, later segments overriding earlier ones, and never fails. */
  lemma {:induction false} AddEventsMap(rec: PbsObject, ev: PbsObject, segs: seq<string>)
    requires "event" in rec.data && rec.data["event"] == Obj(ev)
    ensures AddEvents(rec, segs) == Partial(Put(rec, "event", Obj(PbsObject(ev.name, ev.data + EventMap(segs)))), None)
    decreases |segs|
  {
    if |segs| == 0 {
      assert ev.data + map[] == ev.data;
      assert rec.data["event" := Obj(ev)] == rec.data;
    } else {
      var kv := PyStr.Split(segs[0], '=');
      var ev1 := Put(ev, kv[0], List(kv[1..]));
      var r1 := Put(rec, "event", Obj(ev1));
      assert SetIn(rec, "event", kv[0], List(kv[1..])) == Ok(r1);
      assert AddEvents(rec, segs) == AddEvents(r1, segs[1..]);
      AddEventsMap(r1, ev1, segs[1..]);
      var rest := EventMap(segs[1..]);
      assert EventMap(segs) == map[kv[0] := List(kv[1..])] + rest;
      UpdateThenUnion(ev.data, kv[0], List(kv[1..]), rest);
      var evs := Obj(PbsObject(ev.name, ev.data + EventMap(segs)));
      assert r1.data["event" := evs] == rec.data["event" := evs];
    }
  }

  /** A message=EVENT:... token replaces the event record by the entries of
      its ':'-separated segments after the first. */
  lemma MessageEventReplaces(rec: PbsObject, attr: string, v: string)
    requires var tmp := Splitter.Split(v, '=');
      |tmp| >= 2 && tmp[0] == "message" && PyStr.StartsWith(tmp[1], "EVENT:")
    ensures StatusToken(rec, attr, v) ==
      Partial(Put(rec, "event", Obj(PbsObject(None, EventMap(EventSegments(v))))), None)
  {
    assert StatusToken(rec, attr, v) == AddEvents(Put(rec, "event", Obj(Empty)), EventSegments(v));
    AddEventsFresh(rec, EventSegments(v));
  }

  /** The event loop on a fresh event record. */
  lemma AddEventsFresh(rec: PbsObject, segs: seq<string>)
    ensures AddEvents(Put(rec, "event", Obj(Empty)), segs)
         == Partial(Put(rec, "event", Obj(PbsObject(None, EventMap(segs)))), None)
  {
    var r0 := Put(rec, "event", Obj(Empty));
    AddEventsMap(r0, Empty, segs);
    assert map[] + EventMap(segs) == EventMap(segs);
    assert r0.data["event" := Obj(PbsObject(None, EventMap(segs)))]
        == rec.data["event" := Obj(PbsObject(None, EventMap(segs)))];
  }

  /** An EVENT:... token adds its entries to the event record a message
      token created before it; without one it raises KeyError and changes
      nothing. */
  lemma EventTokenAdds(rec: PbsObject, attr: string, v: string)
    requires var tmp := Splitter.Split(v, '=');
      |tmp| >= 1 && tmp[0] != "message" && PyStr.StartsWith(tmp[0], "EVENT:")
    ensures "event" in rec.data && rec.data["event"].Obj? ==>
      StatusToken(rec, attr, v) ==
        Partial(Put(rec, "event", Obj(PbsObject(rec.data["event"].rec.name,
                                                rec.data["event"].rec.data + EventMap(EventSegments(v))))), None)
    ensures "event" !in rec.data && |EventSegments(v)| > 0 ==>
      StatusToken(rec, attr, v) == Partial(rec, Some(KeyError))
  {
    if "event" in rec.data && rec.data["event"].Obj? {
      AddEventsMap(rec, rec.data["event"].rec, EventSegments(v));
    }
  }

  /** Any other message=... token stores the pieces after "message" as the
      record's error entry. */
  lemma MessageError(rec: PbsObject, attr: string, v: string)
    requires var tmp := Splitter.Split(v, '=');
      |tmp| >= 2 && tmp[0] == "message" && !PyStr.StartsWith(tmp[1], "EVENT:")
    ensures StatusToken(rec, attr, v).err.None?
    ensures "error" in StatusToken(rec, attr, v).rec.data
    ensures StatusToken(rec, attr, v).rec.data["error"] == List(Splitter.Split(v, '=')[1..])
  {
  }

  /** A key= token stores an empty list under its key in the nested record,
      creating it when absent. */
  lemma EmptyStatusEntry(rec: PbsObject, attr: string, key: string)
    requires Splitter.IsToken(key, '=') && key != "message" && key != "name"
    requires !PyStr.StartsWith(key, "EVENT:")
    requires attr !in rec.data || rec.data[attr].Obj?
    ensures StatusToken(rec, attr, key + "=").err.None?
    ensures attr in StatusToken(rec, attr, key + "=").rec.data
    ensures StatusToken(rec, attr, key + "=").rec.data[attr].Obj?
    ensures key in StatusToken(rec, attr, key + "=").rec.data[attr].rec.data
    ensures StatusToken(rec, attr, key + "=").rec.data[attr].rec.data[key] == List([])
  {
    Splitter.SplitTrailingDelimiter(key, '=');
    assert [key][1..] == [];
  }

  /** A piece that no splitter cuts: non-empty, without ',', '=', ':' or '('. */
  predicate Plain(t: string)
  {
    |t| > 0 && ',' !in t && '=' !in t && ':' !in t && '(' !in t
  }

  lemma PlainPair(k: string, x: string, d: char)
    requires Splitter.Delimiter(d) && Plain(k) && Plain(x)
    ensures Splitter.Split(k + [d] + x, d) == [k, x]
    ensures PyStr.Split(k + [d] + x, d) == [k, x]
  {
    Splitter.PlainToken(k, d);
    Splitter.PlainToken(x, d);
    assert PyStr.Join([k, x], d) == k + [d] + x;
    Splitter.SplitJoin([k, x], d);
    PyStr.SplitJoin([k, x], d);
  }

  /** The '='-pieces of message=EVENT:a=x. */
  lemma MessageEventSplit(a: string, x: string)
    requires Plain(a) && Plain(x)
    ensures Splitter.Split("message=EVENT:" + a + "=" + x, '=') == ["message", "EVENT:" + a, x]
  {
    var ta := "EVENT:" + a;
    Splitter.PlainToken("message", '=');
    EventToken(a);
    Splitter.PlainToken(x, '=');
    PyStr.JoinThree("message", ta, x, '=');
    MessageEventText(a, x);
    Splitter.SplitJoin(["message", ta, x], '=');
  }

  /** EVENT:a is one '='-token. */
  lemma EventToken(a: string)
    requires Plain(a)
    ensures Splitter.IsToken("EVENT:" + a, '=')
  {
    var ta := "EVENT:" + a;
    assert '=' !in ta && '(' !in ta;
    Splitter.PlainToken(ta, '=');
  }

  lemma MessageEventText(a: string, x: string)
    ensures "message" + "=" + ("EVENT:" + a) + "=" + x == "message=EVENT:" + a + "=" + x
  {
    assert "message" + "=" + "EVENT:" == "message=EVENT:";
  }

  /** The '='-pieces of EVENT:b=y. */
  lemma EventSplit(b: string, y: string)
    requires Plain(b) && Plain(y)
    ensures Splitter.Split("EVENT:" + b + "=" + y, '=') == ["EVENT:" + b, y]
  {
    var tb := "EVENT:" + b;
    EventToken(b);
    Splitter.PlainToken(y, '=');
    PyStr.JoinTwo(tb, y, '=');
    Splitter.SplitJoin([tb, y], '=');
  }

  /** The event segment of a token p:k=x whose prefix p has no ':'. */
  lemma OneSegment(p: string, k: string, x: string)
    requires Plain(k) && Plain(x) && ':' !in p
    ensures EventSegments(p + ":" + k + "=" + x) == [k + "=" + x]
  {
    var seg := k + "=" + x;
    PyStr.JoinTwo(p, seg, ':');
    assert p + ":" + seg == p + ":" + k + "=" + x;
    PyStr.SplitJoin([p, seg], ':');
  }

  lemma EventPrefix(a: string)
    ensures PyStr.StartsWith("EVENT:" + a, "EVENT:")
  {
    assert ("EVENT:" + a)[..6] == "EVENT:";
  }

  /** The entries of one event segment k=x. */
  lemma SingleEvent(k: string, x: string)
    requires Plain(k) && Plain(x)
    ensures EventMap([k + "=" + x]) == map[k := List([x])]
  {
    PlainPair(k, x, '=');
    assert [k + "=" + x][1..] == [];
    assert map[k := List([x])] + map[] == map[k := List([x])];
  }

  /** A plain single-token attribute reads the same through return_value in
      both data structures: the raw string in the old, [raw] in the new. */
  lemma ScalarEitherStructure(rec: PbsObject, a: Attrib)
    requires a.resource == "" && a.name != "status" && a.name != "Variable_List"
    requires |a.value| > 0 && ',' !in a.value && '(' !in a.value
    ensures MergeAttrib(rec, a, true) == Partial(Put(rec, a.name, Str(a.value)), None)
    ensures MergeAttrib(rec, a, false) == Partial(Put(rec, a.name, List([a.value])), None)
    ensures ReturnValue(MergeAttrib(rec, a, true).rec, a.name) == Ok(Str(a.value))
    ensures ReturnValue(MergeAttrib(rec, a, false).rec, a.name) == Ok(Str(a.value))
  {
    CommaValuesWhole(a.value);
  }

  /** An empty value is where the two structures part: the old one stores
      "", the new one the empty token list, on which return_value raises
      IndexError. */
  lemma EmptyValueDiffers(rec: PbsObject, name: string)
    requires name != "status" && name != "Variable_List"
    ensures ReturnValue(MergeAttrib(rec, Attrib(name, "", ""), true).rec, name) == Ok(Str(""))
    ensures ReturnValue(MergeAttrib(rec, Attrib(name, "", ""), false).rec, name) == Err(IndexError)
  {
    assert CommaValues("") == [];
  }
}
