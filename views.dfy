/** The typed views on a record: job (is_running, get_nodes), node (is_free,
    has_job, get_jobs), queue (is_enabled, is_execution) and server
    (get_version).  Each works on a record the assembler built, in either
    data structure. */
module Views {
  import opened Base
  import PyStr
  import Ranges
  import opened Records

  /** Python's truth value of a stored value: an empty string, list or
      record is false (_PBSobject.__nonzero__ looks at the data only). */
  predicate Truthy(v: Value)
  {
    match v
    case Str(s) => |s| > 0
    case List(xs) => |xs| > 0
    case Obj(o) => o.data != map[]
  }

  // ---------------------------------------------------------------- job

  /** job.is_running: true when job_state reads 'Q'.  The name says running,
      but the state it compares with is the queued state. */
  function IsRunning(job: PbsObject): (r: Result<bool>)
    ensures r == Ok(true) <==> ReturnValue(job, "job_state") == Ok(Str("Q"))
    ensures r.Err? <==> ReturnValue(job, "job_state").Err?
    ensures r.Err? ==> r.error == ReturnValue(job, "job_state").error
  {
    FirstValueIs(job, "job_state", "Q")
  }

  /** The host/slot entries of an exec_host value: string.split on '+' for
      a raw string; for a list, a bare subrange token is glued onto the last
      entry with ',' and every other token is split on '+'.  A record value
      would be iterated over its keys, in no specified order. */
  function NodeEntries(v: Value): Result<seq<string>>
  {
    match v
    case Str(s) => Ok(PyStr.Split(s, '+'))
    case List(xs) => RegroupNodes([], xs)
    case Obj(_) => Err(UnorderedIteration)
  }

  /** The list loop of get_nodes from the entries collected so far; a
      subrange with no entry before it fails on nodelist[-1]. */
  function RegroupNodes(nodelist: seq<string>, xs: seq<string>): Result<seq<string>>
    decreases |xs|
  {
    if |xs| == 0 then Ok(nodelist)
    else if Ranges.IsSubrange(xs[0]) then
      if |nodelist| == 0 then Err(IndexError)
      else RegroupNodes(nodelist[|nodelist| - 1 := nodelist[|nodelist| - 1] + "," + xs[0]], xs[1..])
    else RegroupNodes(nodelist + PyStr.Split(xs[0], '+'), xs[1..])
  }

  /** The host of each entry: the text before its first '/'. */
  function Hosts(nodelist: seq<string>): seq<string>
  {
    seq(|nodelist|, i requires 0 <= i < |nodelist| => PyStr.Split(nodelist[i], '/')[0])
  }

  /** ["%s/%s" % (host, i) for i in ids]. */
  function HostSlots(host: string, ids: seq<string>): seq<string>
  {
    seq(|ids|, k requires 0 <= k < |ids| => host + "/" + ids[k])
  }

  /** The non-unique loop of get_nodes from the result so far: every entry
      host/range contributes host/i for each slot i of the range; an entry
      without '/' fails on t[1], a bad range fails in convert_range. */
  function ExpandSlots(res: seq<string>, nodelist: seq<string>): Result<seq<string>>
    decreases |nodelist|
  {
    if |nodelist| == 0 then Ok(res)
    else
      var t := PyStr.Split(nodelist[0], '/');
      if |t| < 2 then Err(IndexError)
      else match Ranges.ConvertRangeSpec(t[1])
        case Err(e) => Err(e)
        case Ok(ids) => ExpandSlots(res + HostSlots(t[0], ids), nodelist[1..])
  }

  /** What job.get_nodes(unique) returns, or the exception it raises. */
  function GetNodesSpec(job: PbsObject, unique: bool): Result<seq<string>>
  {
    var nodes := GetValue(job, "exec_host");
    if nodes.None? || !Truthy(nodes.value) then Ok([])
    else match NodeEntries(nodes.value)
      case Err(e) => Err(e)
      case Ok(nodelist) => if unique then Ok(FirstSeen(Hosts(nodelist))) else ExpandSlots([], nodelist)
  }

  /** job.get_nodes: the regrouping loop over a list value, then the loop
      that expands the entries into host/slot names or, when unique, keeps
      each host once in the order first seen. */
  method GetNodes(job: PbsObject, unique: bool) returns (r: Result<seq<string>>)
    ensures r == GetNodesSpec(job, unique)
  {
    var nodes := GetValue(job, "exec_host");
    if nodes.None? || !Truthy(nodes.value) {
      return Ok([]);
    }
    var nodelist: seq<string> := [];
    match nodes.value {
      case Str(s) =>
        nodelist := PyStr.Split(s, '+');
      case Obj(_) =>
        return Err(UnorderedIteration);
      case List(xs) =>
        var entries := RegroupNodeList(xs);
        if entries.Err? {
          return Err(entries.error);
        }
        nodelist := entries.value;
    }
    assert NodeEntries(nodes.value) == Ok(nodelist);
    if unique {
      var hosts := UniqueHosts(nodelist);
      r := Ok(hosts);
    } else {
      r := ExpandNodeList(nodelist);
    }
  }

  /** The regrouping loop of get_nodes over a list value. */
  method RegroupNodeList(xs: seq<string>) returns (r: Result<seq<string>>)
    ensures r == RegroupNodes([], xs)
  {
    var nodelist: seq<string> := [];
    for i := 0 to |xs|
      invariant RegroupNodes(nodelist, xs[i..]) == RegroupNodes([], xs)
    {
      assert xs[i..][0] == xs[i] && xs[i..][1..] == xs[i + 1..];
      var n := xs[i];
      if Ranges.IsSubrange(n) {
        if |nodelist| == 0 {
          return Err(IndexError);
        }
        nodelist := nodelist[|nodelist| - 1 := nodelist[|nodelist| - 1] + "," + n];
      } else {
        nodelist := nodelist + PyStr.Split(n, '+');
      }
    }
    assert xs[|xs|..] == [];
    r := Ok(nodelist);
  }

  /** The unique loop of get_nodes: each host once, in the order first
      seen. */
  method UniqueHosts(nodelist: seq<string>) returns (res: seq<string>)
    ensures res == FirstSeen(Hosts(nodelist))
  {
    res := [];
    for i := 0 to |nodelist|
      invariant res == FirstSeen(Hosts(nodelist[..i]))
    {
      var t := PyStr.Split(nodelist[i], '/');
      assert Hosts(nodelist[..i + 1]) == Hosts(nodelist[..i]) + [t[0]];
      FirstSeenSnoc(Hosts(nodelist[..i]), t[0]);
      if t[0] !in res {
        res := res + [t[0]];
      }
    }
    assert nodelist[..|nodelist|] == nodelist;
  }

  /** The non-unique loop of get_nodes: host/i for every slot i of every
      entry. */
  method ExpandNodeList(nodelist: seq<string>) returns (r: Result<seq<string>>)
    ensures r == ExpandSlots([], nodelist)
  {
    var res: seq<string> := [];
    for i := 0 to |nodelist|
      invariant ExpandSlots(res, nodelist[i..]) == ExpandSlots([], nodelist)
    {
      var t := PyStr.Split(nodelist[i], '/');
      assert nodelist[i..][0] == nodelist[i] && nodelist[i..][1..] == nodelist[i + 1..];
      if |t| < 2 {
        return Err(IndexError);
      }
      var ids := Ranges.ConvertRange(t[1]);
      if ids.Err? {
        return Err(ids.error);
      }
      res := res + HostSlots(t[0], ids.value);
    }
    assert nodelist[|nodelist|..] == [];
    r := Ok(res);
  }

  // --------------------------------------------------------------- node

  /** node.is_free: true when state reads 'free'. */
  function IsFree(node: PbsObject): (r: Result<bool>)
    ensures r == Ok(true) <==> ReturnValue(node, "state") == Ok(Str("free"))
    ensures r.Err? <==> ReturnValue(node, "state").Err?
    ensures r.Err? ==> r.error == ReturnValue(node, "state").error
  {
    FirstValueIs(node, "state", "free")
  }

  /** node.has_job: whether the record holds a jobs attribute at all. */
  function HasJob(node: PbsObject): (r: bool)
    ensures r <==> GetValue(node, "jobs").Some?
  {
    "jobs" in node.data
  }

  /** The job entries of a jobs list, regrouped from the right: a bare
      subrange token is glued in front of the entry after it, so
      ['1', '3', '7-9/17.master'] becomes ['1,3,7-9/17.master'].  As joblist
      in the source, the result lists the entries last first; a subrange
      with no entry after it fails on joblist[-1]. */
  function RegroupJobs(xs: seq<string>): Result<seq<string>>
    decreases |xs|
  {
    if |xs| == 0 then Ok([])
    else match RegroupJobs(xs[1..])
      case Err(e) => Err(e)
      case Ok(joblist) =>
        if Ranges.IsSubrange(xs[0]) then
          if |joblist| == 0 then Err(IndexError)
          else Ok(joblist[|joblist| - 1 := xs[0] + "," + joblist[|joblist| - 1]])
        else Ok(joblist + [xs[0]])
  }

  /** s[::-1]. */
  function Reversed(s: seq<string>): (r: seq<string>)
    ensures |r| == |s|
    ensures forall i :: 0 <= i < |s| ==> r[i] == s[|s| - 1 - i]
  {
    seq(|s|, i requires 0 <= i < |s| => s[|s| - 1 - i])
  }

  /** The groups of a JOB_RE match: the slot range before '/' when the
      optional part matched (None otherwise), and the job id. */
  datatype JobMatch = JobMatch(slots: Option<string>, id: string)

  /** A character of [\d,-]. */
  predicate IsRangeChar(c: char)
  {
    PyStr.IsDigit(c) || c == ',' || c == '-'
  }

  /** The end of the run of [\d,-] characters that starts at i. */
  function RangeRunEnd(j: string, i: nat): (k: nat)
    requires i <= |j|
    ensures i <= k <= |j|
    ensures forall m :: i <= m < k ==> IsRangeChar(j[m])
    ensures k < |j| ==> !IsRangeChar(j[k])
    decreases |j| - i
  {
    if i == |j| || !IsRangeChar(j[i]) then i else RangeRunEnd(j, i + 1)
  }

  /** The end of the line that starts at i: how far ".+" reaches. */
  function LineEnd(j: string, i: nat): (k: nat)
    requires i <= |j|
    ensures i <= k <= |j|
    ensures forall m :: i <= m < k ==> j[m] != '\n'
    ensures k < |j| ==> j[k] == '\n'
    decreases |j| - i
  {
    if i == |j| || j[i] == '\n' then i else LineEnd(j, i + 1)
  }

  /** (?:((?:[\d,-]+)?\d+)/)?(.+) matched at index i.  The optional part
      can only end at the first character outside [\d,-], which must be '/'
      after a digit, and is kept only when ".+" still finds a character
      after it; otherwise ".+" takes the line from i. */
  function JobMatchAt(j: string, i: nat): (m: Option<JobMatch>)
    requires i <= |j|
    ensures m.Some? <==> i < |j| && j[i] != '\n'
    ensures m.Some? ==> |m.value.id| > 0 && '\n' !in m.value.id
  {
    var k := RangeRunEnd(j, i);
    if i < k && PyStr.IsDigit(j[k - 1]) && k + 1 < |j| && j[k] == '/' && j[k + 1] != '\n' then
      var e := LineEnd(j, k + 1);
      assert j[k + 1..e][0] == j[k + 1];
      Some(JobMatch(Some(j[i..k]), j[k + 1..e]))
    else if i < |j| && j[i] != '\n' then
      var e := LineEnd(j, i);
      assert j[i..e][0] == j[i];
      Some(JobMatch(None, j[i..e]))
    else None
  }

  /** JOB_RE.search from start position q: at 0 the "^" alternative is
      tried first, then at every position a ',' followed by a match. */
  function JobSearchFrom(j: string, q: nat): (m: Option<JobMatch>)
    requires q <= |j|
    ensures q == 0 && |j| > 0 && j[0] != '\n' ==> m == JobMatchAt(j, 0)
    decreases |j| - q
  {
    if q == 0 && JobMatchAt(j, 0).Some? then JobMatchAt(j, 0)
    else if q < |j| && j[q] == ',' && JobMatchAt(j, q + 1).Some? then JobMatchAt(j, q + 1)
    else if q < |j| then JobSearchFrom(j, q + 1)
    else None
  }

  /** JOB_RE.search(j). */
  function JobSearch(j: string): Option<JobMatch>
  {
    JobSearchFrom(j, 0)
  }

  /** ["%s/%s" % (i, jobid) for i in ids]. */
  function SlotJobs(ids: seq<string>, jobid: string): seq<string>
  {
    seq(|ids|, k requires 0 <= k < |ids| => ids[k] + "/" + jobid)
  }

  /** The extraction loop of get_jobs from the result so far.  A failed
      search, or a missing range when not unique (convert_range(None)),
      is the AttributeError the source raises. */
  function CollectJobs(l: seq<string>, js: seq<string>, unique: bool): Result<seq<string>>
    decreases |js|
  {
    if |js| == 0 then Ok(l)
    else match JobSearch(js[0])
      case None => Err(AttributeError)
      case Some(m) =>
        if unique then CollectJobs(if m.id in l then l else l + [m.id], js[1..], unique)
        else match m.slots
          case None => Err(AttributeError)
          case Some(txt) =>
            match Ranges.ConvertRangeSpec(txt)
            case Err(e) => Err(e)
            case Ok(ids) => CollectJobs(l + SlotJobs(ids, m.id), js[1..], unique)
  }

  /** A match of [^\ /]\d+[^/.] as re.findall returns it: a character other
      than space and '/', one or more digits, then a character other than
      '/' and '.'. */
  predicate JobIdShape(t: string)
  {
    && |t| >= 3
    && t[0] != ' ' && t[0] != '/'
    && PyStr.AllDigits(t[1..|t| - 1])
    && t[|t| - 1] != '/' && t[|t| - 1] != '.'
  }

  /** The length of the match of [^\ /]\d+[^/.] at the front of s, if one
      starts there: the greedy digit run gives back its last digit when the
      character after it is '/', '.' or missing. */
  function ScanAt(s: string): (n: Option<nat>)
    requires |s| > 0
    ensures n.Some? ==> n.value <= |s| && JobIdShape(s[..n.value])
  {
    if s[0] == ' ' || s[0] == '/' then None
    else
      var e := PyStr.SkipDigits(s, 1);
      if e == 1 then None
      else if e < |s| && s[e] != '/' && s[e] != '.' then
        assert s[..e + 1][1..e] == s[1..e];
        Some(e + 1)
      else if e >= 3 then
        DigitRunGivesBack(s, e);
        Some(e)
      else None
  }

  /** A digit run s[1..e] of two or more digits ends a match at e when it
      gives back its last digit. */
  lemma DigitRunGivesBack(s: string, e: nat)
    requires 3 <= e <= |s| && s[0] != ' ' && s[0] != '/'
    requires PyStr.AllDigits(s[1..e])
    ensures JobIdShape(s[..e])
  {
    var run := s[1..e];
    assert s[..e][1..e - 1] == run[..e - 2];
    assert s[..e][e - 1] == run[e - 2];
  }

  /** re.findall('[^\ /]\d+[^/.]', s): the scan of a raw jobs string. */
  function ScanJobs(s: string): (r: seq<string>)
    ensures forall i :: 0 <= i < |r| ==> JobIdShape(r[i])
    decreases |s|
  {
    if |s| == 0 then []
    else match ScanAt(s)
      case None => ScanJobs(s[1..])
      case Some(n) => [s[..n]] + ScanJobs(s[n..])
  }

  /** A list result whose order is fixed, or one fixed only up to order
      (uniq returns dictionary keys). */
  datatype Listing = Ordered(items: seq<string>) | AnyOrder(elems: set<string>)

  /** What node.get_jobs(unique) returns, or the exception it raises.  A
      record value fails on jobs[::-1], which looks the slice up as a key. */
  function GetJobsSpec(node: PbsObject, unique: bool): Result<Listing>
  {
    var jobs := GetValue(node, "jobs");
    if jobs.None? || !Truthy(jobs.value) then Ok(Ordered([]))
    else match jobs.value
      case Str(s) =>
        var jlist := ScanJobs(s);
        if unique then Ok(AnyOrder(Elements(jlist))) else Ok(Ordered(jlist))
      case List(xs) =>
        (match RegroupJobs(xs)
         case Err(e) => Err(e)
         case Ok(joblist) =>
           match CollectJobs([], Reversed(joblist), unique)
           case Err(e) => Err(e)
           case Ok(l) => Ok(Ordered(l)))
      case Obj(_) => Err(TypeError)
  }

  /** r is a result the listing allows. */
  predicate Lists(r: Result<seq<string>>, spec: Result<Listing>)
  {
    match spec
    case Err(e) => r == Err(e)
    case Ok(Ordered(xs)) => r == Ok(xs)
    case Ok(AnyOrder(s)) => r.Ok? && NoDuplicates(r.value) && Elements(r.value) == s
  }

  lemma {:induction false} RegroupJobsFails(xs: seq<string>, i: nat)
    requires i <= |xs|
    requires RegroupJobs(xs[i..]).Err?
    ensures RegroupJobs(xs) == RegroupJobs(xs[i..])
    decreases i
  {
    if i > 0 {
      assert xs[i - 1..][1..] == xs[i..];
      RegroupJobsFails(xs, i - 1);
    } else {
      assert xs[0..] == xs;
    }
  }

  /** node.get_jobs: the raw string is scanned; a list is regrouped from
      the right, then every entry is matched with JOB_RE in the original
      order. */
  method GetJobs(node: PbsObject, unique: bool) returns (r: Result<seq<string>>)
    ensures Lists(r, GetJobsSpec(node, unique))
  {
    var jobs := GetValue(node, "jobs");
    if jobs.None? || !Truthy(jobs.value) {
      return Ok([]);
    }
    match jobs.value {
      case Obj(_) =>
        return Err(TypeError);
      case Str(s) =>
        var jlist := ScanJobs(s);
        if !unique {
          return Ok(jlist);
        }
        var u := Uniq(jlist);
        r := Ok(u);
      case List(xs) =>
        var joblist := RegroupJobList(xs);
        if joblist.Err? {
          return Err(joblist.error);
        }
        r := CollectJobList(Reversed(joblist.value), unique);
    }
  }

  /** The regrouping loop of get_jobs, walking the list from the right. */
  method RegroupJobList(xs: seq<string>) returns (r: Result<seq<string>>)
    ensures r == RegroupJobs(xs)
  {
    var joblist: seq<string> := [];
    var i := |xs|;
    assert xs[|xs|..] == [];
    while i > 0
      invariant 0 <= i <= |xs|
      invariant RegroupJobs(xs[i..]) == Ok(joblist)
    {
      i := i - 1;
      assert xs[i..][0] == xs[i] && xs[i..][1..] == xs[i + 1..];
      var j := xs[i];
      if Ranges.IsSubrange(j) {
        if |joblist| == 0 {
          RegroupJobsFails(xs, i);
          return Err(IndexError);
        }
        joblist := joblist[|joblist| - 1 := j + "," + joblist[|joblist| - 1]];
      } else {
        joblist := joblist + [j];
      }
    }
    assert xs[0..] == xs;
    r := Ok(joblist);
  }

  /** The extraction loop of get_jobs over the regrouped entries. */
  method CollectJobList(js: seq<string>, unique: bool) returns (r: Result<seq<string>>)
    ensures r == CollectJobs([], js, unique)
  {
    var l: seq<string> := [];
    for k := 0 to |js|
      invariant CollectJobs(l, js[k..], unique) == CollectJobs([], js, unique)
    {
      assert js[k..][0] == js[k] && js[k..][1..] == js[k + 1..];
      var m := JobSearch(js[k]);
      if m.None? {
        return Err(AttributeError);
      }
      var jobstr := m.value.id;
      if unique {
        if jobstr !in l {
          l := l + [jobstr];
        }
      } else {
        if m.value.slots.None? {
          return Err(AttributeError);
        }
        var ids := Ranges.ConvertRange(m.value.slots.value);
        if ids.Err? {
          return Err(ids.error);
        }
        l := l + SlotJobs(ids.value, jobstr);
      }
    }
    assert js[|js|..] == [];
    r := Ok(l);
  }

  // -------------------------------------------------------------- queue

  /** queue.is_enabled: true when enabled reads 'True'. */
  function IsEnabled(queue: PbsObject): (r: Result<bool>)
    ensures r == Ok(true) <==> ReturnValue(queue, "enabled") == Ok(Str("True"))
    ensures r.Err? <==> ReturnValue(queue, "enabled").Err?
    ensures r.Err? ==> r.error == ReturnValue(queue, "enabled").error
  {
    FirstValueIs(queue, "enabled", "True")
  }

  /** queue.is_execution: true when queue_type reads 'Execution'. */
  function IsExecution(queue: PbsObject): (r: Result<bool>)
    ensures r == Ok(true) <==> ReturnValue(queue, "queue_type") == Ok(Str("Execution"))
    ensures r.Err? <==> ReturnValue(queue, "queue_type").Err?
    ensures r.Err? ==> r.error == ReturnValue(queue, "queue_type").error
  {
    FirstValueIs(queue, "queue_type", "Execution")
  }

  // ------------------------------------------------------------- server

  /** server.get_version: the whole pbs_version value (a list in the new
      data structure), or None. */
  function GetVersion(server: PbsObject): (r: Option<Value>)
    ensures r.Some? <==> "pbs_version" in server.data
    ensures r.Some? ==> r.value == server.data["pbs_version"]
  {
    GetValue(server, "pbs_version")
  }

  // ------------------------------------------------------- properties

  /** Every character of s belongs to [\d,-]. */
  predicate RangeText(s: string)
  {
    forall m :: 0 <= m < |s| ==> IsRangeChar(s[m])
  }

  /** Text that JOB_RE's range group can take whole: a non-empty run of
      [\d,-] ending in a digit. */
  predicate SlotText(s: string)
  {
    |s| > 0 && RangeText(s) && PyStr.IsDigit(s[|s| - 1])
  }

  lemma FormatSlotText(s: Ranges.Slot)
    ensures SlotText(Ranges.FormatSlot(s))
  {
    match s
    case Single(n) =>
    case Span(lo, hi) =>
      var a := PyStr.NatToStr(lo);
      var b := PyStr.NatToStr(hi);
      var t := a + "-" + b;
      forall m | 0 <= m < |t| ensures IsRangeChar(t[m]) {
        if m < |a| {
          assert t[m] == a[m];
        } else if m > |a| {
          assert t[m] == b[m - |a| - 1];
        }
      }
      assert t[|t| - 1] == b[|b| - 1];
  }

  lemma {:induction false} JoinSlotText(xs: seq<string>)
    requires |xs| > 0
    requires forall i :: 0 <= i < |xs| ==> SlotText(xs[i])
    ensures SlotText(PyStr.Join(xs, ','))
    decreases |xs|
  {
    if |xs| > 1 {
      forall i | 0 <= i < |xs[1..]| ensures SlotText(xs[1..][i]) {
        assert xs[1..][i] == xs[i + 1];
      }
      JoinSlotText(xs[1..]);
      var rest := PyStr.Join(xs[1..], ',');
      var j := xs[0] + [','] + rest;
      assert SlotText(xs[0]);
      forall m | 0 <= m < |j| ensures IsRangeChar(j[m]) {
        if m < |xs[0]| {
          assert j[m] == xs[0][m];
        } else if m > |xs[0]| {
          assert j[m] == rest[m - |xs[0]| - 1];
        }
      }
      assert j[|j| - 1] == rest[|rest| - 1];
    }
  }

  /** The text of a slot list is all [\d,-] and ends in a digit. */
  lemma FormatSlotsText(ss: seq<Ranges.Slot>)
    requires |ss| > 0
    ensures SlotText(Ranges.FormatSlots(ss))
  {
    var pieces := seq(|ss|, i requires 0 <= i < |ss| => Ranges.FormatSlot(ss[i]));
    forall i | 0 <= i < |pieces| ensures SlotText(pieces[i]) {
      FormatSlotText(ss[i]);
    }
    JoinSlotText(pieces);
  }

  /** JOB_RE on "slots/jobid": the slot text and the job id come back as
      the two groups. */
  lemma JobMatchOfSlots(slots: string, id: string)
    requires SlotText(slots) && |id| > 0 && '\n' !in id
    ensures JobSearch(slots + "/" + id) == Some(JobMatch(Some(slots), id))
  {
    var j := slots + "/" + id;
    var k := RangeRunEnd(j, 0);
    forall m | 0 <= m < |slots| ensures j[m] == slots[m] && IsRangeChar(j[m]) {
    }
    assert j[|slots|] == '/';
    assert k == |slots|;
    var e := LineEnd(j, k + 1);
    forall m | k + 1 <= m < |j| ensures j[m] != '\n' {
      assert j[m] == id[m - k - 1];
    }
    assert e == |j|;
    assert j[k + 1..e] == id;
    assert j[0..k] == slots;
  }

  /** JOB_RE on a list entry such as "7-9/17.master" built from slots. */
  lemma JobMatchOfFormat(ss: seq<Ranges.Slot>, id: string)
    requires |ss| > 0 && |id| > 0 && '\n' !in id
    ensures JobSearch(Ranges.FormatSlots(ss) + "/" + id) == Some(JobMatch(Some(Ranges.FormatSlots(ss)), id))
  {
    FormatSlotsText(ss);
    JobMatchOfSlots(Ranges.FormatSlots(ss), id);
  }

  /** Every entry matches JOB_RE. */
  predicate AllMatch(js: seq<string>)
  {
    forall k :: 0 <= k < |js| ==> JobSearch(js[k]).Some?
  }

  /** The job ids JOB_RE finds in the entries. */
  function MatchedIds(js: seq<string>): (r: seq<string>)
    requires AllMatch(js)
    ensures |r| == |js|
  {
    seq(|js|, k requires 0 <= k < |js| => JobSearch(js[k]).value.id)
  }

  /** One step of the unique extraction loop. */
  lemma CollectUniqueStep(seen: seq<string>, js: seq<string>)
    requires |js| > 0 && JobSearch(js[0]).Some?
    ensures CollectJobs(FirstSeen(seen), js, true)
         == CollectJobs(FirstSeen(seen + [JobSearch(js[0]).value.id]), js[1..], true)
  {
    FirstSeenSnoc(seen, JobSearch(js[0]).value.id);
  }

  /** The unique extraction loop keeps each job id once, in the order first
      seen, continuing from the ids of entries already seen. */
  lemma {:induction false} CollectUnique(seen: seq<string>, js: seq<string>)
    requires AllMatch(js)
    ensures CollectJobs(FirstSeen(seen), js, true) == Ok(FirstSeen(seen + MatchedIds(js)))
    decreases |js|
  {
    if |js| == 0 {
      assert seen + MatchedIds(js) == seen;
    } else {
      var id := JobSearch(js[0]).value.id;
      MatchedIdsCons(js);
      CollectUnique(seen + [id], js[1..]);
      CollectUniqueStep(seen, js);
      ConcatAfter(seen, id, MatchedIds(js[1..]), MatchedIds(js));
    }
  }

  /** Appending an item and then a tail appends the tail led by the item. */
  lemma ConcatAfter(seen: seq<string>, id: string, tail: seq<string>, all: seq<string>)
    requires all == [id] + tail
    ensures seen + [id] + tail == seen + all
  {
  }

  lemma MatchedIdsCons(js: seq<string>)
    requires |js| > 0 && AllMatch(js)
    ensures AllMatch(js[1..])
    ensures MatchedIds(js) == [JobSearch(js[0]).value.id] + MatchedIds(js[1..])
  {
    forall k | 0 <= k < |js[1..]| ensures JobSearch(js[1..][k]).Some? {
      assert js[1..][k] == js[k + 1];
    }
  }

  /** get_jobs(unique=True) on a list value lists each job id once, in the
      order its first entry appears. */
  lemma GetJobsUnique(node: PbsObject, xs: seq<string>, joblist: seq<string>)
    requires "jobs" in node.data && node.data["jobs"] == List(xs) && |xs| > 0
    requires RegroupJobs(xs) == Ok(joblist)
    requires AllMatch(Reversed(joblist))
    ensures GetJobsSpec(node, true) == Ok(Ordered(FirstSeen(MatchedIds(Reversed(joblist)))))
  {
    CollectUnique([], Reversed(joblist));
    assert [] + MatchedIds(Reversed(joblist)) == MatchedIds(Reversed(joblist));
  }

  /** A range as the scheduler writes it is a bare subrange. */
  lemma FormatSlotIsSubrange(s: Ranges.Slot)
    ensures Ranges.IsSubrange(Ranges.FormatSlot(s))
  {
    match s
    case Single(n) =>
      var a := PyStr.NatToStr(n);
      assert PyStr.SkipDigits(a, 0) == |a|;
    case Span(lo, hi) =>
      var a := PyStr.NatToStr(lo);
      var b := PyStr.NatToStr(hi);
      var t := a + "-" + b;
      assert forall m :: 0 <= m < |a| ==> t[m] == a[m];
      assert t[|a|] == '-';
      assert PyStr.SkipDigits(t, 0) == |a|;
      assert t[|a| + 1..] == b;
  }

  /** A bare subrange has no '/'. */
  lemma SubrangeHasNoSlash(t: string)
    requires Ranges.IsSubrange(t)
    ensures '/' !in t && '+' !in t
  {
    var c := if Ranges.SubrangeBody(t) then t else t[..|t| - 1];
    var i := PyStr.SkipDigits(c, 0);
    forall m | 0 <= m < |c| ensures c[m] != '/' && c[m] != '+' {
      if m < i {
        assert c[m] == c[0..i][m];
      } else if m > i {
        assert c[m] == c[i + 1..][m - i - 1];
      }
    }
    if c != t {
      assert t == c + [t[|t| - 1]];
    }
  }

  /** A job entry of a node's jobs value as the scheduler writes it: the
      slots the job holds on the node, '/', then the job id. */
  datatype JobSlots = JobSlots(slots: seq<Ranges.Slot>, id: string)

  predicate GoodJob(e: JobSlots)
  {
    |e.slots| > 0 && |e.id| > 0 && '\n' !in e.id && ',' !in e.id && '(' !in e.id
  }

  predicate GoodJobs(es: seq<JobSlots>)
  {
    forall k :: 0 <= k < |es| ==> GoodJob(es[k])
  }

  /** The text of an entry, such as "1,3,7-9/17.master". */
  function JobText(e: JobSlots): string
  {
    Ranges.FormatSlots(e.slots) + "/" + e.id
  }

  function JobTexts(es: seq<JobSlots>): (r: seq<string>)
    ensures |r| == |es|
  {
    seq(|es|, k requires 0 <= k < |es| => JobText(es[k]))
  }

  function RangeTexts(ss: seq<Ranges.Slot>): (r: seq<string>)
    ensures |r| == |ss|
  {
    seq(|ss|, i requires 0 <= i < |ss| => Ranges.FormatSlot(ss[i]))
  }

  /** The comma tokens of an entry: every range but the last on its own,
      then the last range with "/" and the job id. */
  function JobTokens(e: JobSlots): seq<string>
    requires |e.slots| > 0
  {
    var ps := RangeTexts(e.slots);
    ps[..|ps| - 1] + [ps[|ps| - 1] + "/" + e.id]
  }

  /** The comma tokens of a whole jobs value, entry after entry. */
  function AllJobTokens(es: seq<JobSlots>): seq<string>
    requires GoodJobs(es)
    decreases |es|
  {
    if |es| == 0 then []
    else
      assert GoodJobs(es[1..]) by {
        forall k | 0 <= k < |es[1..]| ensures GoodJob(es[1..][k]) {
          assert es[1..][k] == es[k + 1];
        }
      }
      JobTokens(es[0]) + AllJobTokens(es[1..])
  }

  /** "slot/jobid" for every slot of every entry, in order. */
  function AllSlotJobs(es: seq<JobSlots>): seq<string>
    decreases |es|
  {
    if |es| == 0 then [] else SlotJobs(Ranges.AllSlotIds(es[0].slots), es[0].id) + AllSlotJobs(es[1..])
  }

  lemma GoodJobsTail(es: seq<JobSlots>)
    requires |es| > 0 && GoodJobs(es)
    ensures GoodJob(es[0]) && GoodJobs(es[1..])
  {
    forall k | 0 <= k < |es[1..]| ensures GoodJob(es[1..][k]) {
      assert es[1..][k] == es[k + 1];
    }
  }

  /** Bare subranges in front of a token are glued onto it, with ',', as
      the right-to-left loop reaches them. */
  lemma {:induction false} RegroupGlue(bs: seq<string>, t: string, ys: seq<string>, rs: seq<string>)
    requires forall i :: 0 <= i < |bs| ==> Ranges.IsSubrange(bs[i])
    requires !Ranges.IsSubrange(t)
    requires RegroupJobs(ys) == Ok(rs)
    ensures RegroupJobs(bs + [t] + ys) == Ok(rs + [PyStr.Join(bs + [t], ',')])
    decreases |bs|
  {
    var xs := bs + [t] + ys;
    if |bs| == 0 {
      assert xs == [t] + ys && xs[1..] == ys;
    } else {
      assert xs[0] == bs[0];
      assert xs[1..] == bs[1..] + [t] + ys;
      RegroupGlue(bs[1..], t, ys, rs);
      var j' := PyStr.Join(bs[1..] + [t], ',');
      var jl := rs + [j'];
      assert jl[|jl| - 1 := bs[0] + "," + j'] == rs + [bs[0] + "," + j'];
      assert (bs + [t])[1..] == bs[1..] + [t];
      assert (bs + [t])[0] == bs[0];
      assert PyStr.Join(bs + [t], ',') == bs[0] + "," + j';
    }
  }

  /** The tokens of one entry: bare subranges, then one token that is not. */
  lemma JobTokensShape(e: JobSlots)
    requires GoodJob(e)
    ensures var ts := JobTokens(e);
      && |ts| > 0
      && (forall i :: 0 <= i < |ts| - 1 ==> Ranges.IsSubrange(ts[i]))
      && !Ranges.IsSubrange(ts[|ts| - 1])
      && PyStr.Join(ts, ',') == JobText(e)
  {
    var ps := RangeTexts(e.slots);
    JobTokensSubranges(e);
    LastTokenNoSubrange(ps[|ps| - 1], e.id);
    JobTokensJoin(e);
  }

  lemma JobTokensSubranges(e: JobSlots)
    requires GoodJob(e)
    ensures var ts := JobTokens(e);
      forall i :: 0 <= i < |ts| - 1 ==> Ranges.IsSubrange(ts[i])
  {
    var ps := RangeTexts(e.slots);
    var ts := JobTokens(e);
    forall i | 0 <= i < |ts| - 1 ensures Ranges.IsSubrange(ts[i]) {
      assert ts[i] == ps[i];
      FormatSlotIsSubrange(e.slots[i]);
    }
  }

  lemma JobTokensJoin(e: JobSlots)
    requires GoodJob(e)
    ensures PyStr.Join(JobTokens(e), ',') == JobText(e)
  {
    var ps := RangeTexts(e.slots);
    PyStr.JoinExtendLast(ps, "/" + e.id, ',');
    assert ps[|ps| - 1] + "/" + e.id == ps[|ps| - 1] + ("/" + e.id);
    assert PyStr.Join(ps, ',') == Ranges.FormatSlots(e.slots);
  }

  /** The last token of an entry holds the '/' before the job id. */
  lemma LastTokenNoSubrange(f: string, id: string)
    ensures !Ranges.IsSubrange(f + "/" + id)
  {
    var t := f + "/" + id;
    assert t[|f|] == '/';
    if Ranges.IsSubrange(t) {
      SubrangeHasNoSlash(t);
      assert false;
    }
  }

  /** One entry's tokens in front of the rest regroup into its text. */
  lemma RegroupEntry(e: JobSlots, ys: seq<string>, rs: seq<string>)
    requires GoodJob(e)
    requires RegroupJobs(ys) == Ok(rs)
    ensures RegroupJobs(JobTokens(e) + ys) == Ok(rs + [JobText(e)])
  {
    var ts := JobTokens(e);
    JobTokensShape(e);
    var bs := ts[..|ts| - 1];
    assert ts == bs + [ts[|ts| - 1]];
    RegroupGlue(bs, ts[|ts| - 1], ys, rs);
  }

  lemma ReversedCons(s: seq<string>)
    requires |s| > 0
    ensures Reversed(s) == Reversed(s[1..]) + [s[0]]
  {
  }

  /** The right-to-left loop of get_jobs puts written entries back
      together from their comma tokens, last entry first. */
  lemma {:induction false} RegroupEntries(es: seq<JobSlots>)
    requires GoodJobs(es)
    ensures RegroupJobs(AllJobTokens(es)) == Ok(Reversed(JobTexts(es)))
    decreases |es|
  {
    if |es| > 0 {
      GoodJobsTail(es);
      RegroupEntries(es[1..]);
      RegroupEntry(es[0], AllJobTokens(es[1..]), Reversed(JobTexts(es[1..])));
      ReversedCons(JobTexts(es));
      assert JobTexts(es)[1..] == JobTexts(es[1..]);
    }
  }

  /** Reversing twice gives the list back. */
  lemma ReversedTwice(s: seq<string>)
    ensures Reversed(Reversed(s)) == s
  {
  }

  /** One step of the non-unique extraction loop over written entries. */
  lemma CollectSlotsStep(l: seq<string>, es: seq<JobSlots>)
    requires |es| > 0 && GoodJob(es[0])
    ensures CollectJobs(l, JobTexts(es), false)
         == CollectJobs(l + SlotJobs(Ranges.AllSlotIds(es[0].slots), es[0].id), JobTexts(es[1..]), false)
  {
    var e := es[0];
    var js := JobTexts(es);
    assert js[0] == JobText(e);
    assert js[1..] == JobTexts(es[1..]);
    JobMatchOfFormat(e.slots, e.id);
    Ranges.ConvertRangeOfFormat(e.slots);
  }

  /** The non-unique extraction loop expands every entry into its
      slot/jobid names. */
  lemma {:induction false} CollectSlots(l: seq<string>, es: seq<JobSlots>)
    requires GoodJobs(es)
    ensures CollectJobs(l, JobTexts(es), false) == Ok(l + AllSlotJobs(es))
    decreases |es|
  {
    var js := JobTexts(es);
    if |es| == 0 {
      assert l + [] == l;
    } else {
      var e := es[0];
      GoodJobsTail(es);
      var first := SlotJobs(Ranges.AllSlotIds(e.slots), e.id);
      CollectSlotsStep(l, es);
      CollectSlots(l + first, es[1..]);
      assert AllSlotJobs(es) == first + AllSlotJobs(es[1..]);
      assert (l + first) + AllSlotJobs(es[1..]) == l + AllSlotJobs(es);
    }
  }

  /** The job ids of the entries. */
  function EntryIds(es: seq<JobSlots>): (r: seq<string>)
    ensures |r| == |es|
  {
    seq(|es|, k requires 0 <= k < |es| => es[k].id)
  }

  /** JOB_RE finds every written entry, with its job id. */
  lemma EntriesMatch(es: seq<JobSlots>)
    requires GoodJobs(es)
    ensures AllMatch(JobTexts(es))
    ensures MatchedIds(JobTexts(es)) == EntryIds(es)
  {
    var js := JobTexts(es);
    forall k | 0 <= k < |js| ensures JobSearch(js[k]) == Some(JobMatch(Some(Ranges.FormatSlots(es[k].slots)), es[k].id)) {
      assert GoodJob(es[k]);
      JobMatchOfFormat(es[k].slots, es[k].id);
    }
  }

  lemma JobTokensNotEmpty(es: seq<JobSlots>)
    requires |es| > 0 && GoodJobs(es)
    ensures |AllJobTokens(es)| > 0
  {
    GoodJobsTail(es);
    JobTokensShape(es[0]);
  }

  /** get_jobs(unique=False) on a jobs list made of the comma tokens of
      written entries: every slot of every entry as slot/jobid, in the
      order written. */
  lemma GetJobsOfEntries(node: PbsObject, es: seq<JobSlots>)
    requires |es| > 0 && GoodJobs(es)
    requires "jobs" in node.data && node.data["jobs"] == List(AllJobTokens(es))
    ensures GetJobsSpec(node, false) == Ok(Ordered(AllSlotJobs(es)))
  {
    JobTokensNotEmpty(es);
    RegroupEntries(es);
    ReversedTwice(JobTexts(es));
    CollectAllSlots(es);
    GetJobsOfList(node, AllJobTokens(es), Reversed(JobTexts(es)), false, AllSlotJobs(es));
  }

  lemma CollectAllSlots(es: seq<JobSlots>)
    requires GoodJobs(es)
    ensures CollectJobs([], JobTexts(es), false) == Ok(AllSlotJobs(es))
  {
    CollectSlots([], es);
    assert [] + AllSlotJobs(es) == AllSlotJobs(es);
  }

  /** get_jobs on a non-empty list: the regrouped entries, matched in the
      original order. */
  lemma GetJobsOfList(node: PbsObject, xs: seq<string>, joblist: seq<string>, unique: bool, l: seq<string>)
    requires "jobs" in node.data && node.data["jobs"] == List(xs) && |xs| > 0
    requires RegroupJobs(xs) == Ok(joblist)
    requires CollectJobs([], Reversed(joblist), unique) == Ok(l)
    ensures GetJobsSpec(node, unique) == Ok(Ordered(l))
  {
  }

  /** get_jobs(unique=True) on the same list: each job id once, in the
      order first written. */
  lemma GetJobsOfEntriesUnique(node: PbsObject, es: seq<JobSlots>)
    requires |es| > 0 && GoodJobs(es)
    requires "jobs" in node.data && node.data["jobs"] == List(AllJobTokens(es))
    ensures GetJobsSpec(node, true) == Ok(Ordered(FirstSeen(EntryIds(es))))
  {
    JobTokensNotEmpty(es);
    RegroupEntries(es);
    ReversedTwice(JobTexts(es));
    EntriesMatch(es);
    GetJobsUnique(node, AllJobTokens(es), Reversed(JobTexts(es)));
  }

  /** One host's share of a job as the scheduler writes it in exec_host:
      the host, '/', then its slots. */
  datatype Placement = Placement(host: string, slots: seq<Ranges.Slot>)

  predicate GoodPlacement(p: Placement)
  {
    |p.slots| > 0 && '+' !in p.host && '/' !in p.host
  }

  predicate GoodPlacements(ps: seq<Placement>)
  {
    forall k :: 0 <= k < |ps| ==> GoodPlacement(ps[k])
  }

  /** The text of a placement, such as "node1/4,5,8-9". */
  function PlacementText(p: Placement): string
  {
    p.host + "/" + Ranges.FormatSlots(p.slots)
  }

  function PlacementTexts(ps: seq<Placement>): (r: seq<string>)
    ensures |r| == |ps|
  {
    seq(|ps|, k requires 0 <= k < |ps| => PlacementText(ps[k]))
  }

  function PlacementHosts(ps: seq<Placement>): (r: seq<string>)
    ensures |r| == |ps|
  {
    seq(|ps|, k requires 0 <= k < |ps| => ps[k].host)
  }

  /** "host/slot" for every slot of every placement, in order. */
  function AllHostSlots(ps: seq<Placement>): seq<string>
    decreases |ps|
  {
    if |ps| == 0 then [] else HostSlots(ps[0].host, Ranges.AllSlotIds(ps[0].slots)) + AllHostSlots(ps[1..])
  }

  lemma GoodPlacementsTail(ps: seq<Placement>)
    requires |ps| > 0 && GoodPlacements(ps)
    ensures GoodPlacement(ps[0]) && GoodPlacements(ps[1..])
  {
    forall k | 0 <= k < |ps[1..]| ensures GoodPlacement(ps[1..][k]) {
      assert ps[1..][k] == ps[k + 1];
    }
  }

  /** A placement splits on '/' into its host and its slot text, and has
      no '+'. */
  lemma PlacementParts(p: Placement)
    requires GoodPlacement(p)
    ensures PyStr.Split(PlacementText(p), '/') == [p.host, Ranges.FormatSlots(p.slots)]
    ensures '+' !in PlacementText(p)
  {
    var f := Ranges.FormatSlots(p.slots);
    FormatSlotsText(p.slots);
    assert '/' !in f && '+' !in f by {
      forall m | 0 <= m < |f| ensures f[m] != '/' && f[m] != '+' {
        assert IsRangeChar(f[m]);
      }
    }
    PyStr.JoinTwo(p.host, f, '/');
    PyStr.SplitJoin([p.host, f], '/');
    var t := PlacementText(p);
    forall m | 0 <= m < |t| ensures t[m] != '+' {
      if m < |p.host| {
        assert t[m] == p.host[m];
      } else if m > |p.host| {
        assert t[m] == f[m - |p.host| - 1];
      }
    }
  }

  /** One step of the non-unique loop of get_nodes over placements. */
  lemma ExpandPlacementsStep(res: seq<string>, ps: seq<Placement>)
    requires |ps| > 0 && GoodPlacement(ps[0])
    ensures ExpandSlots(res, PlacementTexts(ps))
         == ExpandSlots(res + HostSlots(ps[0].host, Ranges.AllSlotIds(ps[0].slots)), PlacementTexts(ps[1..]))
  {
    var ts := PlacementTexts(ps);
    assert ts[0] == PlacementText(ps[0]);
    assert ts[1..] == PlacementTexts(ps[1..]);
    PlacementParts(ps[0]);
    Ranges.ConvertRangeOfFormat(ps[0].slots);
  }

  /** The non-unique loop of get_nodes expands every placement into its
      host/slot names. */
  lemma {:induction false} ExpandPlacements(res: seq<string>, ps: seq<Placement>)
    requires GoodPlacements(ps)
    ensures ExpandSlots(res, PlacementTexts(ps)) == Ok(res + AllHostSlots(ps))
    decreases |ps|
  {
    var ts := PlacementTexts(ps);
    if |ps| == 0 {
      assert res + [] == res;
    } else {
      GoodPlacementsTail(ps);
      var first := HostSlots(ps[0].host, Ranges.AllSlotIds(ps[0].slots));
      ExpandPlacementsStep(res, ps);
      ExpandPlacements(res + first, ps[1..]);
      assert AllHostSlots(ps) == first + AllHostSlots(ps[1..]);
      assert (res + first) + AllHostSlots(ps[1..]) == res + AllHostSlots(ps);
    }
  }

  /** The host of each placement is what get_nodes reads before '/'. */
  lemma HostsOfPlacements(ps: seq<Placement>)
    requires GoodPlacements(ps)
    ensures Hosts(PlacementTexts(ps)) == PlacementHosts(ps)
  {
    forall k | 0 <= k < |ps| ensures Hosts(PlacementTexts(ps))[k] == ps[k].host {
      PlacementParts(ps[k]);
    }
  }

  /** The exec_host text of a list of placements, joined with '+'. */
  function ExecHostText(ps: seq<Placement>): string
  {
    PyStr.Join(PlacementTexts(ps), '+')
  }

  /** exec_host splits on '+' back into its placements. */
  lemma ExecHostEntries(ps: seq<Placement>)
    requires |ps| > 0 && GoodPlacements(ps)
    ensures PyStr.Split(ExecHostText(ps), '+') == PlacementTexts(ps)
    ensures |ExecHostText(ps)| > 0
  {
    var ts := PlacementTexts(ps);
    forall k | 0 <= k < |ts| ensures '+' !in ts[k] {
      PlacementParts(ps[k]);
    }
    PyStr.SplitJoin(ts, '+');
    assert ts[0] == PlacementText(ps[0]);
    assert |ts[0]| > 0 && |PyStr.Join(ts, '+')| >= |ts[0]|;
  }

  /** get_nodes on a non-empty exec_host string: its '+'-entries,
      expanded or reduced to their hosts. */
  lemma GetNodesOfString(job: PbsObject, s: string, unique: bool)
    requires "exec_host" in job.data && job.data["exec_host"] == Str(s) && |s| > 0
    ensures GetNodesSpec(job, unique) ==
      if unique then Ok(FirstSeen(Hosts(PyStr.Split(s, '+')))) else ExpandSlots([], PyStr.Split(s, '+'))
  {
  }

  /** get_nodes(unique=False) on an exec_host string (the old data
      structure): every slot of every placement as host/slot, in the order
      written. */
  lemma GetNodesOfPlacements(job: PbsObject, ps: seq<Placement>)
    requires |ps| > 0 && GoodPlacements(ps)
    requires "exec_host" in job.data && job.data["exec_host"] == Str(ExecHostText(ps))
    ensures GetNodesSpec(job, false) == Ok(AllHostSlots(ps))
  {
    ExecHostEntries(ps);
    GetNodesOfString(job, ExecHostText(ps), false);
    ExpandPlacements([], ps);
    assert [] + AllHostSlots(ps) == AllHostSlots(ps);
  }

  /** get_nodes(unique=True) on the same string: each host once, in
      first-seen order. */
  lemma GetNodesOfPlacementsUnique(job: PbsObject, ps: seq<Placement>)
    requires |ps| > 0 && GoodPlacements(ps)
    requires "exec_host" in job.data && job.data["exec_host"] == Str(ExecHostText(ps))
    ensures GetNodesSpec(job, true) == Ok(FirstSeen(PlacementHosts(ps)))
  {
    ExecHostEntries(ps);
    GetNodesOfString(job, ExecHostText(ps), true);
    HostsOfPlacements(ps);
  }
}
