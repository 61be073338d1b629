/** job.get_nodes on an exec_host stored in the new data structure.  The
    comma splitter cuts "node1/4,5+node2/1" into ['node1/4', '5+node2/1'];
    the regrouping loop takes '5+node2/1' for two new entries, because it
    is no subrange, so the slot 5 of node1 becomes an entry '5' of its own.
    The corrected reading re-joins the tokens with ',' before splitting on
    '+', and then agrees with the old data structure. */
module Findings {
  import opened Base
  import PyStr
  import Splitter
  import Ranges
  import opened Records
  import opened Assembler
  import opened Views
  import Readback

  // ------------------------------------------------------ as written

  /** A host name as it appears in exec_host. */
  predicate HostName(h: string)
  {
    |h| > 0 && ',' !in h && '(' !in h && '+' !in h && '/' !in h
  }

  /** Two hosts, the first holding the slots i and j, the second the slot k:
      the exec_host "h1/i,j+h2/k". */
  function TwoHosts(h1: string, i: nat, j: nat, h2: string, k: nat): seq<Placement>
  {
    [Placement(h1, [Ranges.Single(i), Ranges.Single(j)]), Placement(h2, [Ranges.Single(k)])]
  }

  /** A decimal numeral holds none of the separators. */
  lemma NumeralPlain(n: nat)
    ensures HostName(PyStr.NatToStr(n)) && '-' !in PyStr.NatToStr(n)
  {
    var a := PyStr.NatToStr(n);
    forall m | 0 <= m < |a| ensures a[m] !in ",(+/-" {
      assert PyStr.IsDigit(a[m]);
    }
  }

  lemma OneSlotText(n: nat)
    ensures Ranges.FormatSlots([Ranges.Single(n)]) == PyStr.NatToStr(n)
  {
    var ss := [Ranges.Single(n)];
    assert seq(|ss|, m requires 0 <= m < |ss| => Ranges.FormatSlot(ss[m])) == [PyStr.NatToStr(n)];
  }

  lemma TwoSlotText(i: nat, j: nat)
    ensures Ranges.FormatSlots([Ranges.Single(i), Ranges.Single(j)]) == PyStr.NatToStr(i) + "," + PyStr.NatToStr(j)
  {
    var ss := [Ranges.Single(i), Ranges.Single(j)];
    assert seq(|ss|, m requires 0 <= m < |ss| => Ranges.FormatSlot(ss[m])) == [PyStr.NatToStr(i), PyStr.NatToStr(j)];
    PyStr.JoinTwo(PyStr.NatToStr(i), PyStr.NatToStr(j), ',');
  }

  /** The text of the two placements, grouped as the comma splitter cuts
      it. */
  lemma TwoHostsText(h1: string, i: nat, j: nat, h2: string, k: nat)
    ensures ExecHostText(TwoHosts(h1, i, j, h2, k))
         == (h1 + "/" + PyStr.NatToStr(i)) + "," + (PyStr.NatToStr(j) + "+" + (h2 + "/" + PyStr.NatToStr(k)))
  {
    var ps := TwoHosts(h1, i, j, h2, k);
    var a, b, c := PyStr.NatToStr(i), PyStr.NatToStr(j), PyStr.NatToStr(k);
    TwoSlotText(i, j);
    OneSlotText(k);
    assert PlacementText(ps[0]) == h1 + "/" + (a + "," + b);
    assert PlacementText(ps[1]) == h2 + "/" + c;
    assert PlacementTexts(ps) == [h1 + "/" + (a + "," + b), h2 + "/" + c];
    PyStr.JoinTwo(h1 + "/" + (a + "," + b), h2 + "/" + c, '+');
  }

  /** The new data structure stores that exec_host as two tokens. */
  lemma TwoHostsStored(h1: string, i: nat, j: nat, h2: string, k: nat)
    requires HostName(h1) && HostName(h2)
    ensures var x1 := h1 + "/" + PyStr.NatToStr(i);
      var x2 := PyStr.NatToStr(j) + "+" + (h2 + "/" + PyStr.NatToStr(k));
      && CommaValues(ExecHostText(TwoHosts(h1, i, j, h2, k))) == [x1, x2]
      && Splitter.Splittable(ExecHostText(TwoHosts(h1, i, j, h2, k)), ',')
  {
    var a, b, c := PyStr.NatToStr(i), PyStr.NatToStr(j), PyStr.NatToStr(k);
    NumeralPlain(i);
    NumeralPlain(j);
    NumeralPlain(k);
    var x1 := h1 + "/" + a;
    var x2 := b + "+" + (h2 + "/" + c);
    forall m | 0 <= m < |x1| ensures x1[m] != ',' && x1[m] != '(' {
      if m < |h1| {
        assert x1[m] == h1[m];
      } else if m > |h1| {
        assert x1[m] == a[m - |h1| - 1];
      }
    }
    forall m | 0 <= m < |x2| ensures x2[m] != ',' && x2[m] != '(' {
      if m < |b| {
        assert x2[m] == b[m];
      } else if |b| < m < |b| + 1 + |h2| {
        assert x2[m] == h2[m - |b| - 1];
      } else if m > |b| + 1 + |h2| {
        assert x2[m] == c[m - |b| - |h2| - 2];
      }
    }
    Splitter.PlainToken(x1, ',');
    Splitter.PlainToken(x2, ',');
    TwoHostsText(h1, i, j, h2, k);
    PyStr.JoinTwo(x1, x2, ',');
    var ts := [x1, x2];
    assert Splitter.AllTokens(ts, ',') && PyStr.Join(ts, ',') == ExecHostText(TwoHosts(h1, i, j, h2, k));
    Splitter.SplitJoin(ts, ',');
  }

  /** The regrouping loop makes three entries of the two tokens: the second
      token is no subrange, so it is split on '+' into the slot j alone and
      the second host. */
  lemma TwoHostsEntries(h1: string, a: string, b: string, h2c: string)
    requires HostName(h1) && HostName(a) && HostName(b) && '+' !in h2c
    ensures NodeEntries(List([h1 + "/" + a, b + "+" + h2c])) == Ok([h1 + "/" + a, b, h2c])
  {
    var x1 := h1 + "/" + a;
    var x2 := b + "+" + h2c;
    assert x1[|h1|] == '/';
    if Ranges.IsSubrange(x1) {
      SubrangeHasNoSlash(x1);
    }
    assert x2[|b|] == '+';
    if Ranges.IsSubrange(x2) {
      SubrangeHasNoSlash(x2);
    }
    PyStr.SplitJoin([x1], '+');
    PyStr.JoinTwo(b, h2c, '+');
    PyStr.SplitJoin([b, h2c], '+');
    var xs := [x1, x2];
    assert !Ranges.IsSubrange(xs[0]) && !Ranges.IsSubrange(xs[1..][0]);
    assert xs[1..] == [x2] && xs[1..][1..] == [];
    assert PyStr.Split(x1, '+') == [x1];
    assert PyStr.Split(x2, '+') == [b, h2c];
    assert RegroupNodes([x1], [x2]) == RegroupNodes([x1] + [b, h2c], []);
    assert RegroupNodes([], xs) == RegroupNodes([] + [x1], [x2]);
    assert [] + [x1] == [x1] && [x1] + [b, h2c] == [x1, b, h2c];
    assert RegroupNodes([x1, b, h2c], []) == Ok([x1, b, h2c]);
  }

  /** get_nodes on the three entries: the entry of j alone has no '/'. */
  lemma ThreeEntries(h1: string, a: string, b: string, h2: string, c: string)
    requires HostName(h1) && HostName(a) && HostName(b) && HostName(h2) && HostName(c)
    requires Ranges.ConvertRangeSpec(a).Ok?
    ensures var nl := [h1 + "/" + a, b, h2 + "/" + c];
      ExpandSlots([], nl) == Err(IndexError) && Hosts(nl) == [h1, b, h2]
  {
    var nl := [h1 + "/" + a, b, h2 + "/" + c];
    PyStr.JoinTwo(h1, a, '/');
    PyStr.SplitJoin([h1, a], '/');
    PyStr.SplitJoin([b], '/');
    PyStr.JoinTwo(h2, c, '/');
    PyStr.SplitJoin([h2, c], '/');
    var ids := Ranges.ConvertRangeSpec(a).value;
    assert nl[1..] == [b, h2 + "/" + c];
    assert ExpandSlots([], nl) == ExpandSlots([] + HostSlots(h1, ids), nl[1..]);
  }

  /** host/slot has no '+'. */
  lemma EntryHasNoPlus(h: string, c: string)
    requires HostName(h) && HostName(c)
    ensures '+' !in h + "/" + c
  {
    var t := h + "/" + c;
    forall m | 0 <= m < |t| ensures t[m] != '+' {
      if m < |h| {
        assert t[m] == h[m];
      } else if m > |h| {
        assert t[m] == c[m - |h| - 1];
      }
    }
  }

  /** get_nodes on a stored exec_host of the two tokens h1/a and
      b+h2/c. */
  lemma GetNodesOfTokens(r: PbsObject, h1: string, a: string, b: string, h2: string, c: string)
    requires HostName(h1) && HostName(a) && HostName(b) && HostName(h2) && HostName(c)
    requires Ranges.ConvertRangeSpec(a).Ok?
    requires "exec_host" in r.data && r.data["exec_host"] == List([h1 + "/" + a, b + "+" + (h2 + "/" + c)])
    ensures GetNodesSpec(r, false) == Err(IndexError)
    ensures GetNodesSpec(r, true) == Ok(FirstSeen([h1, b, h2]))
  {
    EntryHasNoPlus(h2, c);
    TwoHostsEntries(h1, a, b, h2 + "/" + c);
    ThreeEntries(h1, a, b, h2, c);
  }

  /** As written: for any two hosts where the first holds two slots i and
      j, get_nodes() on the new data structure raises IndexError on the
      entry made of j alone, and get_nodes(unique=True) reports j as a
      host. */
  lemma GetNodesAsWritten(rec: PbsObject, h1: string, i: nat, j: nat, h2: string, k: nat)
    requires HostName(h1) && HostName(h2)
    ensures var raw := ExecHostText(TwoHosts(h1, i, j, h2, k));
      var p := MergeAttrib(rec, Attrib("exec_host", "", raw), false);
      && p.err.None?
      && GetNodesSpec(p.rec, false) == Err(IndexError)
      && GetNodesSpec(p.rec, true) == Ok(FirstSeen([h1, PyStr.NatToStr(j), h2]))
      && PyStr.NatToStr(j) in Elements(FirstSeen([h1, PyStr.NatToStr(j), h2]))
  {
    var raw := ExecHostText(TwoHosts(h1, i, j, h2, k));
    var a, b, c := PyStr.NatToStr(i), PyStr.NatToStr(j), PyStr.NatToStr(k);
    NumeralPlain(i);
    NumeralPlain(j);
    NumeralPlain(k);
    TwoHostsStored(h1, i, j, h2, k);
    var r := Put(rec, "exec_host", List([h1 + "/" + a, b + "+" + (h2 + "/" + c)]));
    assert MergeAttrib(rec, Attrib("exec_host", "", raw), false) == Partial(r, None);
    OneSlotText(i);
    Ranges.ConvertRangeOfFormat([Ranges.Single(i)]);
    GetNodesOfTokens(r, h1, a, b, h2, c);
    assert [h1, b, h2][1] == b;
  }

  /** The old data structure reads the same exec_host right: every slot of
      both hosts. */
  lemma GetNodesOldStructure(rec: PbsObject, h1: string, i: nat, j: nat, h2: string, k: nat)
    requires HostName(h1) && HostName(h2)
    ensures var raw := ExecHostText(TwoHosts(h1, i, j, h2, k));
      var q := MergeAttrib(rec, Attrib("exec_host", "", raw), true);
      GetNodesSpec(q.rec, false) == Ok([h1 + "/" + PyStr.NatToStr(i), h1 + "/" + PyStr.NatToStr(j), h2 + "/" + PyStr.NatToStr(k)])
  {
    var ps := TwoHosts(h1, i, j, h2, k);
    assert GoodPlacement(ps[0]) && GoodPlacement(ps[1]);
    Readback.ExecHostReadBack(rec, ps);
    TwoHostsSlots(h1, i, j, h2, k);
  }

  /** Every slot of the two placements, host by host. */
  lemma TwoHostsSlots(h1: string, i: nat, j: nat, h2: string, k: nat)
    ensures AllHostSlots(TwoHosts(h1, i, j, h2, k))
         == [h1 + "/" + PyStr.NatToStr(i), h1 + "/" + PyStr.NatToStr(j), h2 + "/" + PyStr.NatToStr(k)]
  {
    var ps := TwoHosts(h1, i, j, h2, k);
    var a, b, c := PyStr.NatToStr(i), PyStr.NatToStr(j), PyStr.NatToStr(k);
    var ss := [Ranges.Single(i), Ranges.Single(j)];
    assert Ranges.AllSlotIds(ss) == [a, b] by {
      assert ss[1..] == [Ranges.Single(j)] && ss[1..][1..] == [];
      assert Ranges.AllSlotIds(ss[1..]) == [b] + [];
      assert Ranges.AllSlotIds(ss) == [a] + [b];
    }
    assert Ranges.AllSlotIds([Ranges.Single(k)]) == [c];
    assert ps[1..] == [Placement(h2, [Ranges.Single(k)])] && ps[1..][1..] == [];
    assert HostSlots(h1, [a, b]) == [h1 + "/" + a, h1 + "/" + b];
    assert HostSlots(h2, [c]) == [h2 + "/" + c];
    assert AllHostSlots(ps[1..]) == [h2 + "/" + c] + [];
  }

  // ------------------------------------------------------- corrected

  /** The exec_host entries as evidently intended: a stored token list is
      first joined back into the text the comma splitter took apart. */
  function NodeEntriesFixed(v: Value): Result<seq<string>>
  {
    match v
    case Str(s) => Ok(PyStr.Split(s, '+'))
    case List(xs) => Ok(PyStr.Split(PyStr.Join(xs, ','), '+'))
    case Obj(_) => Err(UnorderedIteration)
  }

  /** get_nodes with the corrected regrouping. */
  function GetNodesFixedSpec(job: PbsObject, unique: bool): Result<seq<string>>
  {
    var nodes := GetValue(job, "exec_host");
    if nodes.None? || !Truthy(nodes.value) then Ok([])
    else match NodeEntriesFixed(nodes.value)
      case Err(e) => Err(e)
      case Ok(nodelist) => if unique then Ok(FirstSeen(Hosts(nodelist))) else ExpandSlots([], nodelist)
  }

  /** Corrected: whenever the comma splitter keeps the whole exec_host text,
      get_nodes reads the same from the new data structure as from the
      old. */
  lemma FixedAgreesWithOld(rec: PbsObject, raw: string, unique: bool)
    requires Splitter.Splittable(raw, ',')
    ensures GetNodesFixedSpec(MergeAttrib(rec, Attrib("exec_host", "", raw), false).rec, unique)
         == GetNodesSpec(MergeAttrib(rec, Attrib("exec_host", "", raw), true).rec, unique)
  {
    CommaValuesJoin(raw);
    var vs := CommaValues(raw);
    var r1 := Put(rec, "exec_host", List(vs));
    var r2 := Put(rec, "exec_host", Str(raw));
    assert MergeAttrib(rec, Attrib("exec_host", "", raw), false).rec == r1;
    assert MergeAttrib(rec, Attrib("exec_host", "", raw), true).rec == r2;
    if |vs| == 0 {
      assert raw == "";
    }
    FixedReadsJoin(r1, r2, vs, raw, unique);
  }

  /** The corrected reading of a token list is the old reading of its
      join. */
  lemma FixedReadsJoin(r1: PbsObject, r2: PbsObject, vs: seq<string>, raw: string, unique: bool)
    requires "exec_host" in r1.data && r1.data["exec_host"] == List(vs)
    requires "exec_host" in r2.data && r2.data["exec_host"] == Str(raw)
    requires PyStr.Join(vs, ',') == raw && (|vs| > 0 <==> |raw| > 0)
    ensures GetNodesFixedSpec(r1, unique) == GetNodesSpec(r2, unique)
  {
  }

  /** Corrected, for any placements: a token list that joins back into
      the exec_host text reads as every slot of every placement. */
  lemma FixedOfPlacements(job: PbsObject, xs: seq<string>, ps: seq<Placement>)
    requires |ps| > 0 && GoodPlacements(ps)
    requires "exec_host" in job.data && job.data["exec_host"] == List(xs)
    requires PyStr.Join(xs, ',') == ExecHostText(ps)
    ensures GetNodesFixedSpec(job, false) == Ok(AllHostSlots(ps))
  {
    ExecHostEntries(ps);
    assert |xs| > 0;
    ExpandPlacements([], ps);
    assert [] + AllHostSlots(ps) == AllHostSlots(ps);
  }

  /** Corrected on the same input: the new data structure reads as the old
      one, every slot of both hosts. */
  lemma GetNodesCorrected(rec: PbsObject, h1: string, i: nat, j: nat, h2: string, k: nat)
    requires HostName(h1) && HostName(h2)
    ensures var raw := ExecHostText(TwoHosts(h1, i, j, h2, k));
      var p := MergeAttrib(rec, Attrib("exec_host", "", raw), false);
      GetNodesFixedSpec(p.rec, false)
        == Ok([h1 + "/" + PyStr.NatToStr(i), h1 + "/" + PyStr.NatToStr(j), h2 + "/" + PyStr.NatToStr(k)])
  {
    TwoHostsStored(h1, i, j, h2, k);
    FixedAgreesWithOld(rec, ExecHostText(TwoHosts(h1, i, j, h2, k)), false);
    GetNodesOldStructure(rec, h1, i, j, h2, k);
  }
}
