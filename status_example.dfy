/** The status value of the comment in _list_2_dict, worked through token
    by token: message=EVENT:..., EVENT:... and a plain key=value. */
module StatusExample {
  import opened Base
  import PyStr
  import Splitter
  import opened Records
  import opened Assembler

  /** The first token of the comment's example: message=EVENT:a=x creates
      the event record {a: [x]}. */
  lemma MessageEventPair(rec: PbsObject, attr: string, a: string, x: string)
    requires Plain(a) && Plain(x)
    ensures StatusToken(rec, attr, "message=EVENT:" + a + "=" + x) ==
      Partial(Put(rec, "event", Obj(PbsObject(None, map[a := List([x])]))), None)
  {
    var v := "message=EVENT:" + a + "=" + x;
    assert EventSegments(v) == [a + "=" + x] by {
      OneSegment("message=EVENT", a, x);
      assert "message=EVENT" + ":" + a + "=" + x == v;
    }
    assert EventMap(EventSegments(v)) == map[a := List([x])] by {
      SingleEvent(a, x);
    }
    assert StatusToken(rec, attr, v) ==
        Partial(Put(rec, "event", Obj(PbsObject(None, EventMap(EventSegments(v))))), None) by {
      MessageEventSplit(a, x);
      EventPrefix(a);
      MessageEventReplaces(rec, attr, v);
    }
  }

  /** The second token: EVENT:b=y adds b to the event record. */
  lemma EventPair(rec: PbsObject, attr: string, b: string, y: string)
    requires Plain(b) && Plain(y)
    requires "event" in rec.data && rec.data["event"].Obj?
    ensures var ev := rec.data["event"].rec;
      StatusToken(rec, attr, "EVENT:" + b + "=" + y) ==
        Partial(Put(rec, "event", Obj(PbsObject(ev.name, ev.data[b := List([y])]))), None)
  {
    var v := "EVENT:" + b + "=" + y;
    var ev := rec.data["event"].rec;
    assert EventSegments(v) == [b + "=" + y] by {
      OneSegment("EVENT", b, y);
      assert "EVENT" + ":" + b + "=" + y == v;
    }
    assert EventMap(EventSegments(v)) == map[b := List([y])] by {
      SingleEvent(b, y);
    }
    assert StatusToken(rec, attr, v) ==
        Partial(Put(rec, "event", Obj(PbsObject(ev.name, ev.data + EventMap(EventSegments(v))))), None) by {
      EventSplit(b, y);
      EventPrefix(b);
      assert "EVENT:" + b != "message" by {
        assert ("EVENT:" + b)[0] == 'E';
      }
      EventTokenAdds(rec, attr, v);
    }
    assert ev.data + map[b := List([y])] == ev.data[b := List([y])];
  }

  /** A plain status token c=z stores [z] under c in the status record. */
  lemma StatusPair(rec: PbsObject, attr: string, c: string, z: string)
    requires Plain(c) && Plain(z)
    requires c != "message" && c != "name" && !PyStr.StartsWith(c, "EVENT:")
    requires attr !in rec.data
    ensures StatusToken(rec, attr, c + "=" + z) ==
      Partial(Put(rec, attr, Obj(PbsObject(None, map[c := List([z])]))), None)
  {
    PlainPair(c, z, '=');
    assert [c, z][1..] == [z];
  }

  /** The comma tokens of a status value of three plain tokens. */
  lemma ThreeTokens(v1: string, v2: string, v3: string)
    requires |v1| > 0 && ',' !in v1 && '(' !in v1
    requires |v2| > 0 && ',' !in v2 && '(' !in v2
    requires |v3| > 0 && ',' !in v3 && '(' !in v3
    ensures CommaValues(v1 + "," + v2 + "," + v3) == [v1, v2, v3]
  {
    Splitter.PlainToken(v1, ',');
    Splitter.PlainToken(v2, ',');
    Splitter.PlainToken(v3, ',');
    PyStr.JoinThree(v1, v2, v3, ',');
    CommaValuesOfTokens([v1, v2, v3]);
  }

  /** The three tokens of the example are whole comma tokens. */
  lemma ExampleTokensPlain(a: string, x: string, b: string, y: string, c: string, z: string)
    requires Plain(a) && Plain(x) && Plain(b) && Plain(y) && Plain(c) && Plain(z)
    ensures var v1 := "message=EVENT:" + a + "=" + x;
      |v1| > 0 && ',' !in v1 && '(' !in v1
    ensures var v2 := "EVENT:" + b + "=" + y;
      |v2| > 0 && ',' !in v2 && '(' !in v2
    ensures var v3 := c + "=" + z;
      |v3| > 0 && ',' !in v3 && '(' !in v3
  {
    assert ',' !in "message=EVENT:" && '(' !in "message=EVENT:";
    assert ',' !in "EVENT:" && '(' !in "EVENT:";
  }

  /** A status attribute in the new data structure is the status loop over
      its comma tokens. */
  lemma StatusAttrib(rec: PbsObject, raw: string)
    ensures MergeAttrib(rec, Attrib("status", "", raw), false) == MergeStatus(rec, "status", CommaValues(raw))
  {
  }

  /** Three status tokens that each succeed, one after the other. */
  lemma MergeThree(rec: PbsObject, attr: string, v1: string, v2: string, v3: string, r1: PbsObject, r2: PbsObject, r3: PbsObject)
    requires StatusToken(rec, attr, v1) == Partial(r1, None)
    requires StatusToken(r1, attr, v2) == Partial(r2, None)
    requires StatusToken(r2, attr, v3) == Partial(r3, None)
    ensures MergeStatus(rec, attr, [v1, v2, v3]) == Partial(r3, None)
  {
    assert MergeStatus(r2, attr, [v3]) == Partial(r3, None) by {
      assert [v3][1..] == [];
    }
    assert MergeStatus(r1, attr, [v2, v3]) == Partial(r3, None) by {
      assert [v2, v3][1..] == [v3];
    }
    assert [v1, v2, v3][1..] == [v2, v3];
  }

  /** The comma tokens of the status value of the comment. */
  function ExampleTokens(a: string, x: string, b: string, y: string, c: string, z: string): seq<string>
  {
    ["message=EVENT:" + a + "=" + x, "EVENT:" + b + "=" + y, c + "=" + z]
  }

  /** The record the status value of the comment leaves behind. */
  function ExampleRecord(rec: PbsObject, a: string, x: string, b: string, y: string, c: string, z: string): PbsObject
  {
    PbsObject(rec.name, rec.data[
      "event" := Obj(PbsObject(None, map[a := List([x]), b := List([y])]))][
      "status" := Obj(PbsObject(None, map[c := List([z])]))])
  }

  lemma ExampleSplit(rec: PbsObject, a: string, x: string, b: string, y: string, c: string, z: string)
    requires Plain(a) && Plain(x) && Plain(b) && Plain(y) && Plain(c) && Plain(z)
    ensures MergeAttrib(rec, Attrib("status", "",
              ("message=EVENT:" + a + "=" + x) + "," + ("EVENT:" + b + "=" + y) + "," + (c + "=" + z)), false)
         == MergeStatus(rec, "status", ExampleTokens(a, x, b, y, c, z))
  {
    var v1 := "message=EVENT:" + a + "=" + x;
    var v2 := "EVENT:" + b + "=" + y;
    var v3 := c + "=" + z;
    ExampleTokensPlain(a, x, b, y, c, z);
    ThreeTokens(v1, v2, v3);
    StatusAttrib(rec, v1 + "," + v2 + "," + v3);
  }

  /** The two event tokens of the comment, one after the other. */
  lemma ExampleEvents(rec: PbsObject, a: string, x: string, b: string, y: string)
    requires Plain(a) && Plain(x) && Plain(b) && Plain(y)
    ensures var rec1 := Put(rec, "event", Obj(PbsObject(None, map[a := List([x])])));
      && StatusToken(rec, "status", "message=EVENT:" + a + "=" + x) == Partial(rec1, None)
      && StatusToken(rec1, "status", "EVENT:" + b + "=" + y)
         == Partial(Put(rec, "event", Obj(PbsObject(None, map[a := List([x]), b := List([y])]))), None)
  {
    var rec1 := Put(rec, "event", Obj(PbsObject(None, map[a := List([x])])));
    MessageEventPair(rec, "status", a, x);
    EventPair(rec1, "status", b, y);
    assert map[a := List([x])][b := List([y])] == map[a := List([x]), b := List([y])];
  }

  lemma ExampleMerge(rec: PbsObject, a: string, x: string, b: string, y: string, c: string, z: string)
    requires Plain(a) && Plain(x) && Plain(b) && Plain(y) && Plain(c) && Plain(z)
    requires c != "message" && c != "name" && !PyStr.StartsWith(c, "EVENT:")
    requires "status" !in rec.data
    ensures MergeStatus(rec, "status", ExampleTokens(a, x, b, y, c, z)) == Partial(ExampleRecord(rec, a, x, b, y, c, z), None)
  {
    var rec1 := Put(rec, "event", Obj(PbsObject(None, map[a := List([x])])));
    var rec2 := Put(rec, "event", Obj(PbsObject(None, map[a := List([x]), b := List([y])])));
    var rec3 := Put(rec2, "status", Obj(PbsObject(None, map[c := List([z])])));
    ExampleEvents(rec, a, x, b, y);
    StatusPair(rec2, "status", c, z);
    var v1 := "message=EVENT:" + a + "=" + x;
    var v2 := "EVENT:" + b + "=" + y;
    var v3 := c + "=" + z;
    MergeThree(rec, "status", v1, v2, v3, rec1, rec2, rec3);
  }

  /** The status value of the comment in _list_2_dict, with its pieces left
      open: message=EVENT:a=x,EVENT:b=y,c=z gives the event record {a: [x],
      b: [y]} and the status record {c: [z]}. */
  lemma StatusEvents(rec: PbsObject, a: string, x: string, b: string, y: string, c: string, z: string)
    requires Plain(a) && Plain(x) && Plain(b) && Plain(y) && Plain(c) && Plain(z)
    requires c != "message" && c != "name" && !PyStr.StartsWith(c, "EVENT:")
    requires "status" !in rec.data
    ensures var p := MergeAttrib(rec, Attrib("status", "",
                 ("message=EVENT:" + a + "=" + x) + "," + ("EVENT:" + b + "=" + y) + "," + (c + "=" + z)), false);
      && p.err.None?
      && p.rec == PbsObject(rec.name, rec.data[
           "event" := Obj(PbsObject(None, map[a := List([x]), b := List([y])]))][
           "status" := Obj(PbsObject(None, map[c := List([z])]))])
  {
    ExampleSplit(rec, a, x, b, y, c, z);
    ExampleMerge(rec, a, x, b, y, c, z);
  }

  // ------------------------------------------- runs of plain key=value pairs

  /** The comma tokens k=x of a run of status pairs. */
  function PairTokens(ks: seq<string>, xs: seq<string>): (ts: seq<string>)
    requires |ks| == |xs|
    ensures |ts| == |ks|
    ensures forall i :: 0 <= i < |ts| ==> ts[i] == ks[i] + "=" + xs[i]
  {
    seq(|ks|, i requires 0 <= i < |ks| => ks[i] + "=" + xs[i])
  }

  /** The entries a run of status pairs describes, a later pair overriding
      an earlier one with the same key. */
  function PairMap(ks: seq<string>, xs: seq<string>): map<string, Value>
    requires |ks| == |xs|
    decreases |ks|
  {
    if |ks| == 0 then map[]
    else map[ks[0] := List([xs[0]])] + PairMap(ks[1..], xs[1..])
  }

  /** Pairs whose keys are none of message, name or an EVENT: prefix, and
      whose keys and values hold no separator. */
  predicate PlainPairs(ks: seq<string>, xs: seq<string>)
  {
    && |ks| == |xs|
    && forall i :: 0 <= i < |ks| ==>
         && Plain(ks[i]) && Plain(xs[i])
         && ks[i] != "message" && ks[i] != "name" && !PyStr.StartsWith(ks[i], "EVENT:")
  }

  /** A plain status token c=z adds [z] under c to an existing status
      record, keeping its name and its other entries. */
  lemma StatusPairAdds(rec: PbsObject, attr: string, c: string, z: string)
    requires Plain(c) && Plain(z)
    requires c != "message" && !PyStr.StartsWith(c, "EVENT:")
    requires attr in rec.data && rec.data[attr].Obj?
    ensures var sub := rec.data[attr].rec;
      StatusToken(rec, attr, c + "=" + z) ==
        Partial(Put(rec, attr, Obj(PbsObject(sub.name, sub.data[c := List([z])]))), None)
  {
    PlainPair(c, z, '=');
    assert [c, z][1..] == [z];
  }

  /** One successful status token, then the rest of the loop. */
  lemma MergeStatusCons(rec: PbsObject, attr: string, vs: seq<string>, r1: PbsObject)
    requires |vs| > 0 && StatusToken(rec, attr, vs[0]) == Partial(r1, None)
    ensures MergeStatus(rec, attr, vs) == MergeStatus(r1, attr, vs[1..])
  {
  }

  lemma PutTwice(rec: PbsObject, key: string, v: Value, w: Value)
    ensures Put(Put(rec, key, v), key, w) == Put(rec, key, w)
  {
    assert rec.data[key := v][key := w] == rec.data[key := w];
  }

  lemma PairMapCons(m: map<string, Value>, ks: seq<string>, xs: seq<string>)
    requires |ks| == |xs| && |ks| > 0
    ensures m[ks[0] := List([xs[0]])] + PairMap(ks[1..], xs[1..]) == m + PairMap(ks, xs)
  {
  }

  lemma PairTokensTail(ks: seq<string>, xs: seq<string>)
    requires |ks| == |xs| && |ks| > 0
    ensures PairTokens(ks, xs)[0] == ks[0] + "=" + xs[0]
    ensures PairTokens(ks, xs)[1..] == PairTokens(ks[1..], xs[1..])
  {
  }

  /** The status loop over a run of plain pairs, from an existing status
      record: no exception, and the pairs are merged into that record. */
  lemma {:induction false} StatusPairsAccumulate(rec: PbsObject, attr: string, ks: seq<string>, xs: seq<string>)
    requires PlainPairs(ks, xs)
    requires attr in rec.data && rec.data[attr].Obj?
    ensures var sub := rec.data[attr].rec;
      MergeStatus(rec, attr, PairTokens(ks, xs)) ==
        Partial(Put(rec, attr, Obj(PbsObject(sub.name, sub.data + PairMap(ks, xs)))), None)
    decreases |ks|
  {
    var sub := rec.data[attr].rec;
    if |ks| == 0 {
      assert sub.data + PairMap(ks, xs) == sub.data;
      assert rec.data[attr := Obj(sub)] == rec.data;
    } else {
      var ts := PairTokens(ks, xs);
      PairTokensTail(ks, xs);
      StatusPairAdds(rec, attr, ks[0], xs[0]);
      var sub1 := PbsObject(sub.name, sub.data[ks[0] := List([xs[0]])]);
      var r1 := Put(rec, attr, Obj(sub1));
      MergeStatusCons(rec, attr, ts, r1);
      StatusPairsAccumulate(r1, attr, ks[1..], xs[1..]);
      PairMapCons(sub.data, ks, xs);
      PutTwice(rec, attr, Obj(sub1), Obj(PbsObject(sub.name, sub.data + PairMap(ks, xs))));
    }
  }

  /** Plain key=value tokens of a status or Variable_List value collect into
      one status record: no exception, and the record maps every key to
      [value], a later pair winning.  With no token the record is unchanged. */
  lemma StatusPairsCollect(rec: PbsObject, attr: string, ks: seq<string>, xs: seq<string>)
    requires PlainPairs(ks, xs)
    requires attr !in rec.data
    ensures MergeStatus(rec, attr, PairTokens(ks, xs)) ==
      Partial(if |ks| == 0 then rec else Put(rec, attr, Obj(PbsObject(None, PairMap(ks, xs)))), None)
  {
    if |ks| > 0 {
      var ts := PairTokens(ks, xs);
      PairTokensTail(ks, xs);
      StatusPair(rec, attr, ks[0], xs[0]);
      var r1 := Put(rec, attr, Obj(PbsObject(None, map[ks[0] := List([xs[0]])])));
      MergeStatusCons(rec, attr, ts, r1);
      StatusPairsAccumulate(r1, attr, ks[1..], xs[1..]);
      PairMapCons(map[], ks, xs);
      PutTwice(rec, attr, Obj(PbsObject(None, map[ks[0] := List([xs[0]])])), Obj(PbsObject(None, PairMap(ks, xs))));
    }
  }

  /** The comma tokens of a value written as plain pairs joined by ','. */
  lemma PairTokensStored(ks: seq<string>, xs: seq<string>)
    requires PlainPairs(ks, xs)
    ensures CommaValues(PyStr.Join(PairTokens(ks, xs), ',')) == PairTokens(ks, xs)
  {
    var ts := PairTokens(ks, xs);
    forall i | 0 <= i < |ts| ensures Splitter.IsToken(ts[i], ',') {
      PlainPairToken(ks[i], xs[i]);
    }
    if |ts| == 1 {
      PlainPairToken(ks[0], xs[0]);
      CommaValuesWhole(ts[0]);
    } else {
      CommaValuesOfTokens(ts);
    }
  }

  lemma PlainPairToken(k: string, x: string)
    requires Plain(k) && Plain(x)
    ensures var t := k + "=" + x;
      |t| > 0 && ',' !in t && '(' !in t && Splitter.IsToken(t, ',')
  {
    var t := k + "=" + x;
    assert forall i :: 0 <= i < |t| ==> t[i] == '=' || t[i] in k || t[i] in x;
    Splitter.PlainToken(t, ',');
  }

  /** A whole status or Variable_List attribute written as plain pairs, in
      the new data structure: the value's key=value pairs become one nested
      record under the attribute, later pairs winning. */
  lemma StatusValueCollects(rec: PbsObject, attr: string, ks: seq<string>, xs: seq<string>)
    requires attr == "status" || attr == "Variable_List"
    requires PlainPairs(ks, xs) && |ks| > 0
    requires attr !in rec.data
    ensures MergeAttrib(rec, Attrib(attr, "", PyStr.Join(PairTokens(ks, xs), ',')), false) ==
      Partial(Put(rec, attr, Obj(PbsObject(None, PairMap(ks, xs)))), None)
  {
    PairTokensStored(ks, xs);
    StatusPairsCollect(rec, attr, ks, xs);
  }
}
