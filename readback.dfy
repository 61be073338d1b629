/** Reading back what the server wrote: an attribute stored by
    _list_2_dict and then read by a view gives the entities its text was
    written from. */
module Readback {
  import opened Base
  import PyStr
  import Splitter
  import Ranges
  import opened Records
  import opened Assembler
  import opened Views

  /** Tokens are stored as they are: the comma splitter takes the join of
      any non-empty token list apart into the same list, and a single token
      is the raw value itself. */
  lemma StoredTokens(ts: seq<string>)
    requires |ts| > 0 && Splitter.AllTokens(ts, ',')
    ensures CommaValues(PyStr.Join(ts, ',')) == ts
  {
    Splitter.SplitJoin(ts, ',');
  }

  /** A written range is a non-empty run of digits and '-'. */
  lemma FormatSlotPlain(s: Ranges.Slot)
    ensures |Ranges.FormatSlot(s)| > 0
    ensures ',' !in Ranges.FormatSlot(s) && '(' !in Ranges.FormatSlot(s)
  {
    FormatSlotText(s);
    var t := Ranges.FormatSlot(s);
    match s
    case Single(n) =>
      Ranges.DigitsHaveNoDash(n);
      forall m | 0 <= m < |t| ensures t[m] != '(' {
        assert PyStr.IsDigit(t[m]);
      }
    case Span(lo, hi) =>
      Ranges.DigitsHaveNoDash(lo);
      Ranges.DigitsHaveNoDash(hi);
      var a := PyStr.NatToStr(lo);
      var b := PyStr.NatToStr(hi);
      forall m | 0 <= m < |t| ensures t[m] != ',' && t[m] != '(' {
        if m < |a| {
          assert t[m] == a[m];
        } else if m > |a| {
          assert t[m] == b[m - |a| - 1];
        }
      }
  }

  /** The comma tokens of one written entry are plain tokens. */
  lemma JobTokensPlain(e: JobSlots)
    requires GoodJob(e)
    ensures Splitter.AllTokens(JobTokens(e), ',')
  {
    var ps := RangeTexts(e.slots);
    var ts := JobTokens(e);
    forall i | 0 <= i < |ts| ensures Splitter.IsToken(ts[i], ',') {
      FormatSlotPlain(e.slots[i]);
      if i < |ts| - 1 {
        Splitter.PlainToken(ts[i], ',');
      } else {
        var f := ps[i];
        var t := f + "/" + e.id;
        assert ts[i] == t;
        forall m | 0 <= m < |t| ensures t[m] != ',' && t[m] != '(' {
          if m < |f| {
            assert t[m] == f[m];
          } else if m > |f| {
            assert t[m] == e.id[m - |f| - 1];
          }
        }
        Splitter.PlainToken(t, ',');
      }
    }
  }

  lemma {:induction false} AllJobTokensPlain(es: seq<JobSlots>)
    requires GoodJobs(es)
    ensures Splitter.AllTokens(AllJobTokens(es), ',')
    decreases |es|
  {
    if |es| > 0 {
      GoodJobsTail(es);
      JobTokensPlain(es[0]);
      AllJobTokensPlain(es[1..]);
      var a := JobTokens(es[0]);
      var b := AllJobTokens(es[1..]);
      forall i | 0 <= i < |a + b| ensures Splitter.IsToken((a + b)[i], ',') {
        if i < |a| {
          assert (a + b)[i] == a[i];
        } else {
          assert (a + b)[i] == b[i - |a|];
        }
      }
    }
  }

  /** The tokens of all entries join into the text of the jobs value. */
  lemma {:induction false} JoinJobTokens(es: seq<JobSlots>)
    requires |es| > 0 && GoodJobs(es)
    ensures PyStr.Join(AllJobTokens(es), ',') == PyStr.Join(JobTexts(es), ',')
    decreases |es|
  {
    GoodJobsTail(es);
    JobTokensShape(es[0]);
    var a := JobTokens(es[0]);
    var ts := JobTexts(es);
    assert ts[0] == JobText(es[0]);
    if |es| == 1 {
      assert AllJobTokens(es) == a + [];
      assert a + [] == a;
    } else {
      JoinJobTokens(es[1..]);
      JobTokensNotEmpty(es[1..]);
      PyStr.JoinConcat(a, AllJobTokens(es[1..]), ',');
      assert ts[1..] == JobTexts(es[1..]);
    }
  }

  /** A jobs value written as "1,3,7-9/17.master,2/18.master" is stored in
      the new data structure as its comma tokens. */
  lemma StoredJobs(rec: PbsObject, es: seq<JobSlots>)
    requires |es| > 0 && GoodJobs(es)
    ensures MergeAttrib(rec, Attrib("jobs", "", PyStr.Join(JobTexts(es), ',')), false)
         == Partial(Put(rec, "jobs", List(AllJobTokens(es))), None)
  {
    AllJobTokensPlain(es);
    JobTokensNotEmpty(es);
    JoinJobTokens(es);
    StoredTokens(AllJobTokens(es));
  }

  /** Reading such a jobs value back with get_jobs gives every slot of
      every entry as slot/jobid, or, unique, each job id once. */
  lemma JobsReadBack(rec: PbsObject, es: seq<JobSlots>)
    requires |es| > 0 && GoodJobs(es)
    ensures var p := MergeAttrib(rec, Attrib("jobs", "", PyStr.Join(JobTexts(es), ',')), false);
      && p.err.None?
      && GetJobsSpec(p.rec, false) == Ok(Ordered(AllSlotJobs(es)))
      && GetJobsSpec(p.rec, true) == Ok(Ordered(FirstSeen(EntryIds(es))))
  {
    StoredJobs(rec, es);
    GetJobsOfEntries(Put(rec, "jobs", List(AllJobTokens(es))), es);
    GetJobsOfEntriesUnique(Put(rec, "jobs", List(AllJobTokens(es))), es);
  }

  /** An exec_host value stored in the old data structure reads back with
      get_nodes as every slot of every placement as host/slot. */
  lemma ExecHostReadBack(rec: PbsObject, ps: seq<Placement>)
    requires |ps| > 0 && GoodPlacements(ps)
    ensures var p := MergeAttrib(rec, Attrib("exec_host", "", ExecHostText(ps)), true);
      p.err.None? && GetNodesSpec(p.rec, false) == Ok(AllHostSlots(ps))
  {
    var raw := ExecHostText(ps);
    StoredOld(rec, "exec_host", raw);
    GetNodesOfPlacements(Put(rec, "exec_host", Str(raw)), ps);
  }

  /** Read back with get_nodes(unique=True): each host once, in the order
      written. */
  lemma ExecHostReadBackUnique(rec: PbsObject, ps: seq<Placement>)
    requires |ps| > 0 && GoodPlacements(ps)
    ensures var p := MergeAttrib(rec, Attrib("exec_host", "", ExecHostText(ps)), true);
      GetNodesSpec(p.rec, true) == Ok(FirstSeen(PlacementHosts(ps)))
  {
    var raw := ExecHostText(ps);
    StoredOld(rec, "exec_host", raw);
    GetNodesOfPlacementsUnique(Put(rec, "exec_host", Str(raw)), ps);
  }

  // -------------------------------------- exec_host in the new structure

  /** Placements the new data structure reads back whole: no host holds
      ',' or '(', which the comma splitter would cut on, and every placement
      but the last holds a single slot, so that the only commas of the text
      are between the last host's ranges, as in "node1/4,5,8-9". */
  predicate LastHostRanges(ps: seq<Placement>)
  {
    && |ps| > 0 && GoodPlacements(ps)
    && (forall k :: 0 <= k < |ps| ==> ',' !in ps[k].host && '(' !in ps[k].host)
    && (forall k :: 0 <= k < |ps| - 1 ==> |ps[k].slots| == 1)
  }

  /** The placements with the last one cut down to its first range: the
      text of the first comma token. */
  function FirstRangeOnly(ps: seq<Placement>): (r: seq<Placement>)
    requires |ps| > 0 && |ps[|ps| - 1].slots| > 0
    ensures |r| == |ps|
  {
    var last := ps[|ps| - 1];
    ps[..|ps| - 1] + [Placement(last.host, last.slots[..1])]
  }

  /** What follows the first of a run of tokens once they are joined with
      ','. */
  function CommaTail(rs: seq<string>): string
  {
    if |rs| == 0 then "" else "," + PyStr.Join(rs, ',')
  }

  /** The comma tokens of the exec_host text of such placements: the text
      up to the last host's first range, then each further range. */
  function ExecHostTokens(ps: seq<Placement>): seq<string>
    requires |ps| > 0 && |ps[|ps| - 1].slots| > 0
  {
    [ExecHostText(FirstRangeOnly(ps))] + RangeTexts(ps[|ps| - 1].slots)[1..]
  }

  lemma JoinCons(r: string, rs: seq<string>)
    ensures PyStr.Join([r] + rs, ',') == r + CommaTail(rs)
  {
    if |rs| > 0 {
      assert ([r] + rs)[1..] == rs;
    }
  }

  /** A character in no item and not the separator is not in the join. */
  lemma {:induction false} JoinAvoids(xs: seq<string>, c: char, ch: char)
    requires ch != c
    requires forall k :: 0 <= k < |xs| ==> ch !in xs[k]
    ensures ch !in PyStr.Join(xs, c)
    decreases |xs|
  {
    if |xs| > 1 {
      JoinAvoids(xs[1..], c, ch);
    }
  }

  /** The first item starts the join. */
  lemma JoinStartsWithHead(xs: seq<string>, c: char)
    requires |xs| > 0
    ensures xs[0] <= PyStr.Join(xs, c)
  {
  }

  /** A placement's slot text is its first range, then the rest after
      commas. */
  lemma FormatSlotsHead(ss: seq<Ranges.Slot>)
    requires |ss| > 0
    ensures Ranges.FormatSlots(ss) == Ranges.FormatSlots(ss[..1]) + CommaTail(RangeTexts(ss)[1..])
  {
    var rt := RangeTexts(ss);
    assert Ranges.FormatSlots(ss) == PyStr.Join(rt, ',');
    assert Ranges.FormatSlots(ss[..1]) == PyStr.Join([rt[0]], ',') by {
      assert RangeTexts(ss[..1]) == [rt[0]];
    }
    assert rt == [rt[0]] + rt[1..];
    JoinCons(rt[0], rt[1..]);
  }

  /** The texts of the placements are those of FirstRangeOnly with the
      last one extended by the further ranges. */
  lemma PlacementTextsLast(ps: seq<Placement>)
    requires |ps| > 0 && |ps[|ps| - 1].slots| > 0
    ensures var ts := PlacementTexts(FirstRangeOnly(ps));
      var tail := CommaTail(RangeTexts(ps[|ps| - 1].slots)[1..]);
      PlacementTexts(ps) == ts[..|ts| - 1] + [ts[|ts| - 1] + tail]
  {
    var n := |ps|;
    var last := ps[n - 1];
    var qs := FirstRangeOnly(ps);
    var ts := PlacementTexts(qs);
    var tail := CommaTail(RangeTexts(last.slots)[1..]);
    FormatSlotsHead(last.slots);
    assert PlacementText(last) == PlacementText(qs[n - 1]) + tail;
    forall k | 0 <= k < n
      ensures PlacementTexts(ps)[k] == (ts[..n - 1] + [ts[n - 1] + tail])[k]
    {
      if k < n - 1 {
        assert qs[k] == ps[k];
      }
    }
  }

  /** The exec_host text is its comma tokens joined with ','. */
  lemma ExecHostTokensJoin(ps: seq<Placement>)
    requires |ps| > 0 && |ps[|ps| - 1].slots| > 0
    ensures PyStr.Join(ExecHostTokens(ps), ',') == ExecHostText(ps)
  {
    var ts := PlacementTexts(FirstRangeOnly(ps));
    var tail := CommaTail(RangeTexts(ps[|ps| - 1].slots)[1..]);
    PlacementTextsLast(ps);
    PyStr.JoinExtendLast(ts, tail, '+');
    JoinCons(ExecHostText(FirstRangeOnly(ps)), RangeTexts(ps[|ps| - 1].slots)[1..]);
  }

  lemma FirstRangeOnlyGood(ps: seq<Placement>)
    requires LastHostRanges(ps)
    ensures var qs := FirstRangeOnly(ps);
      && GoodPlacements(qs)
      && forall k :: 0 <= k < |qs| ==> |qs[k].slots| == 1 && ',' !in qs[k].host && '(' !in qs[k].host
  {
    var qs := FirstRangeOnly(ps);
    forall k | 0 <= k < |qs|
      ensures GoodPlacement(qs[k]) && |qs[k].slots| == 1 && ',' !in qs[k].host && '(' !in qs[k].host
    {
      if k < |ps| - 1 {
        assert qs[k] == ps[k];
      }
    }
  }

  /** The first comma token: no ',' and no '(', and a '/' in it. */
  lemma FirstTokenPlain(ps: seq<Placement>)
    requires LastHostRanges(ps)
    ensures var t := ExecHostText(FirstRangeOnly(ps));
      && Splitter.IsToken(t, ',') && '/' in t
  {
    var qs := FirstRangeOnly(ps);
    FirstRangeOnlyGood(ps);
    var ts := PlacementTexts(qs);
    forall k | 0 <= k < |ts| ensures ',' !in ts[k] && '(' !in ts[k] {
      FormatSlotPlain(qs[k].slots[0]);
      assert Ranges.FormatSlots(qs[k].slots) == Ranges.FormatSlot(qs[k].slots[0]) by {
        assert RangeTexts(qs[k].slots) == [Ranges.FormatSlot(qs[k].slots[0])];
      }
    }
    JoinAvoids(ts, '+', ',');
    JoinAvoids(ts, '+', '(');
    var t := ExecHostText(qs);
    JoinStartsWithHead(ts, '+');
    assert t[|qs[0].host|] == '/' by {
      assert ts[0][|qs[0].host|] == '/';
    }
    Splitter.PlainToken(t, ',');
  }

  /** Every further range of the last host is a plain token and a
      subrange. */
  lemma FurtherRangesPlain(ss: seq<Ranges.Slot>)
    requires |ss| > 0
    ensures var rs := RangeTexts(ss)[1..];
      forall k :: 0 <= k < |rs| ==> Splitter.IsToken(rs[k], ',') && Ranges.IsSubrange(rs[k])
  {
    var rs := RangeTexts(ss)[1..];
    forall k | 0 <= k < |rs| ensures Splitter.IsToken(rs[k], ',') && Ranges.IsSubrange(rs[k]) {
      assert rs[k] == Ranges.FormatSlot(ss[k + 1]);
      FormatSlotPlain(ss[k + 1]);
      Splitter.PlainToken(rs[k], ',');
      FormatSlotIsSubrange(ss[k + 1]);
    }
  }

  /** The new data structure stores the exec_host text of such placements
      as its comma tokens. */
  lemma StoredExecHost(rec: PbsObject, ps: seq<Placement>)
    requires LastHostRanges(ps)
    ensures MergeAttrib(rec, Attrib("exec_host", "", ExecHostText(ps)), false)
         == Partial(Put(rec, "exec_host", List(ExecHostTokens(ps))), None)
  {
    var ts := ExecHostTokens(ps);
    FirstTokenPlain(ps);
    FurtherRangesPlain(ps[|ps| - 1].slots);
    forall k | 0 <= k < |ts| ensures Splitter.IsToken(ts[k], ',') {
      if k > 0 {
        assert ts[k] == RangeTexts(ps[|ps| - 1].slots)[1..][k - 1];
      }
    }
    ExecHostTokensJoin(ps);
    StoredTokens(ts);
  }

  /** The list loop glues a run of subranges onto the last entry. */
  lemma {:induction false} GlueRanges(nodelist: seq<string>, rs: seq<string>)
    requires |nodelist| > 0
    requires forall k :: 0 <= k < |rs| ==> Ranges.IsSubrange(rs[k])
    ensures RegroupNodes(nodelist, rs)
         == Ok(nodelist[|nodelist| - 1 := nodelist[|nodelist| - 1] + CommaTail(rs)])
    decreases |rs|
  {
    var n := |nodelist|;
    var a := nodelist[n - 1];
    if |rs| == 0 {
      assert a + "" == a;
      assert nodelist[n - 1 := a] == nodelist;
    } else {
      var next := nodelist[n - 1 := a + "," + rs[0]];
      GlueRanges(next, rs[1..]);
      assert rs == [rs[0]] + rs[1..];
      JoinCons(rs[0], rs[1..]);
      assert CommaTail(rs) == "," + (rs[0] + CommaTail(rs[1..]));
      assert next[n - 1] + CommaTail(rs[1..]) == a + CommaTail(rs);
      assert next[n - 1 := next[n - 1] + CommaTail(rs[1..])] == nodelist[n - 1 := a + CommaTail(rs)];
    }
  }

  /** A first token that is no subrange is split on '+'. */
  lemma RegroupFirst(head: string, rs: seq<string>)
    requires !Ranges.IsSubrange(head)
    ensures RegroupNodes([], [head] + rs) == RegroupNodes(PyStr.Split(head, '+'), rs)
  {
    assert ([head] + rs)[0] == head && ([head] + rs)[1..] == rs;
    assert [] + PyStr.Split(head, '+') == PyStr.Split(head, '+');
  }

  /** The first stored token is no subrange and splits on '+' into the
      placements cut down to their first range; the further tokens are
      subranges. */
  lemma ExecHostTokenShapes(ps: seq<Placement>)
    requires LastHostRanges(ps)
    ensures var head := ExecHostText(FirstRangeOnly(ps));
      && !Ranges.IsSubrange(head)
      && PyStr.Split(head, '+') == PlacementTexts(FirstRangeOnly(ps))
    ensures var rs := RangeTexts(ps[|ps| - 1].slots)[1..];
      forall k :: 0 <= k < |rs| ==> Ranges.IsSubrange(rs[k])
  {
    var head := ExecHostText(FirstRangeOnly(ps));
    FirstRangeOnlyGood(ps);
    FirstTokenPlain(ps);
    FurtherRangesPlain(ps[|ps| - 1].slots);
    if Ranges.IsSubrange(head) {
      SubrangeHasNoSlash(head);
    }
    ExecHostEntries(FirstRangeOnly(ps));
  }

  /** Gluing the further ranges onto the last entry gives the placements'
      own texts. */
  lemma GluedTexts(ps: seq<Placement>)
    requires |ps| > 0 && |ps[|ps| - 1].slots| > 0
    ensures var ts := PlacementTexts(FirstRangeOnly(ps));
      var tail := CommaTail(RangeTexts(ps[|ps| - 1].slots)[1..]);
      ts[|ts| - 1 := ts[|ts| - 1] + tail] == PlacementTexts(ps)
  {
    PlacementTextsLast(ps);
    var ts := PlacementTexts(FirstRangeOnly(ps));
    var tail := CommaTail(RangeTexts(ps[|ps| - 1].slots)[1..]);
    assert ts[|ts| - 1 := ts[|ts| - 1] + tail] == ts[..|ts| - 1] + [ts[|ts| - 1] + tail];
  }

  /** The list loop rebuilds the placements from the stored tokens: the
      first token splits on '+' into the placements, the last cut down to
      its first range, and the further ranges are glued back onto it. */
  lemma RegroupExecHost(ps: seq<Placement>)
    requires LastHostRanges(ps)
    ensures NodeEntries(List(ExecHostTokens(ps))) == Ok(PlacementTexts(ps))
  {
    var head := ExecHostText(FirstRangeOnly(ps));
    var rs := RangeTexts(ps[|ps| - 1].slots)[1..];
    ExecHostTokenShapes(ps);
    RegroupFirst(head, rs);
    GlueRanges(PlacementTexts(FirstRangeOnly(ps)), rs);
    GluedTexts(ps);
  }

  /** An exec_host written as "node1/4+node2/1,5,8-9" (only the last host
      with several ranges) and stored in the new data structure reads back
      with get_nodes as every slot of every placement as host/slot, and,
      unique, each host once in the order written. */
  lemma ExecHostReadBackNew(rec: PbsObject, ps: seq<Placement>)
    requires LastHostRanges(ps)
    ensures var p := MergeAttrib(rec, Attrib("exec_host", "", ExecHostText(ps)), false);
      && p.err.None?
      && GetNodesSpec(p.rec, false) == Ok(AllHostSlots(ps))
      && GetNodesSpec(p.rec, true) == Ok(FirstSeen(PlacementHosts(ps)))
  {
    var job := Put(rec, "exec_host", List(ExecHostTokens(ps)));
    StoredExecHost(rec, ps);
    RegroupExecHost(ps);
    GetNodesOfList(job, ExecHostTokens(ps), PlacementTexts(ps), false);
    GetNodesOfList(job, ExecHostTokens(ps), PlacementTexts(ps), true);
    ExpandPlacements([], ps);
    assert [] + AllHostSlots(ps) == AllHostSlots(ps);
    HostsOfPlacements(ps);
  }

  /** get_nodes on a non-empty exec_host list: the regrouped entries,
      expanded or reduced to their hosts. */
  lemma GetNodesOfList(job: PbsObject, xs: seq<string>, nodelist: seq<string>, unique: bool)
    requires "exec_host" in job.data && job.data["exec_host"] == List(xs) && |xs| > 0
    requires NodeEntries(List(xs)) == Ok(nodelist)
    ensures GetNodesSpec(job, unique) ==
      if unique then Ok(FirstSeen(Hosts(nodelist))) else ExpandSlots([], nodelist)
  {
  }

  /** The old data structure stores a plain attribute's raw text. */
  lemma StoredOld(rec: PbsObject, name: string, raw: string)
    ensures MergeAttrib(rec, Attrib(name, "", raw), true) == Partial(Put(rec, name, Str(raw)), None)
  {
  }
}
