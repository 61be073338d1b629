/** The PBSQuery class: the map of records of the last query, the data
    structure mode, and the lookups on top of the record assembler.  The
    server's reply to each query is a parameter: the raw items that the
    pbs_stat* calls would have returned. */
module Query {
  import opened Base
  import PyStr
  import opened Records
  import opened Assembler

  /** The result of a single-object lookup: the record of that name, or,
      when there is none, the whole map of the query. */
  datatype Lookup = Found(rec: PbsObject) | Whole(d: map<string, PbsObject>)

  /** "try: return self.d[name] except KeyError: return self.d". */
  function Pick(d: map<string, PbsObject>, name: string): (r: Lookup)
    ensures r.Found? <==> name in d
    ensures r.Found? ==> r.rec == d[name]
    ensures r.Whole? ==> r.d == d
  {
    if name in d then Found(d[name]) else Whole(d)
  }

  /** getjob's name normalisation: a job name with no '.' gets
      "." + job_server_id appended; any other name is used as given. */
  function FullJobName(name: string, serverId: string): (r: string)
    ensures '.' in name ==> r == name
    ensures '.' !in name ==> r == name + "." + serverId
  {
    var parts := PyStr.Split(name, '.');
    if |parts| == 1 then
      SinglePiece(name);
      parts[0] + "." + serverId
    else
      SinglePiece(name);
      name
  }

  /** name.split('.') has exactly one piece, name itself, exactly when name
      has no '.'. */
  lemma SinglePiece(name: string)
    ensures |PyStr.Split(name, '.')| == 1 <==> '.' !in name
    ensures '.' !in name ==> PyStr.Split(name, '.') == [name]
  {
    var parts := PyStr.Split(name, '.');
    PyStr.JoinSplit(name, '.');
    if |parts| == 1 {
      assert PyStr.Join(parts, '.') == parts[0];
    }
    if '.' !in name {
      PyStr.SplitJoin([name], '.');
    }
  }

  /** A normalised name is already full: normalising it again keeps it. */
  lemma FullJobNameIdempotent(name: string, serverId: string)
    ensures FullJobName(FullJobName(name, serverId), serverId) == FullJobName(name, serverId)
  {
    if '.' !in name {
      var r := name + "." + serverId;
      assert r[|name|] == '.';
    }
  }

  class PbsQuery {
    /** The server name the object was created for. */
    var server: string
    /** The server part of a full job id, sequence_number.server. */
    var jobServerId: string
    /** OLD_DATA_STRUCTURE. */
    var oldDataStructure: bool
    /** The records of the last query, by name. */
    var d: map<string, PbsObject>

    /** A query object for the given server.  The job server id, which the
        source reads from the server's reply, is given here. */
    constructor (server: string, jobServerId: string)
      ensures this.server == server && this.jobServerId == jobServerId
      ensures !oldDataStructure && d == map[]
    {
      this.server := server;
      this.jobServerId := jobServerId;
      oldDataStructure := false;
      d := map[];
    }

    /** new_data_structure. */
    method NewDataStructure()
      modifies this
      ensures !oldDataStructure
      ensures server == old(server) && jobServerId == old(jobServerId) && d == old(d)
    {
      oldDataStructure := false;
    }

    /** old_data_structure. */
    method OldDataStructure()
      modifies this
      ensures oldDataStructure
      ensures server == old(server) && jobServerId == old(jobServerId) && d == old(d)
    {
      oldDataStructure := true;
    }

    /** _list_2_dict: self.d is rebuilt from the raw items, record by
        record.  An exception leaves self.d as far as it got and is
        returned. */
    method ListToDict(items: seq<RawItem>) returns (err: Option<PyError>)
      modifies this
      ensures Table(d, err) == Assemble(items, oldDataStructure)
      ensures NamedByKey(d)
      ensures err.None? ==> d.Keys == ItemNames(items)
      ensures server == old(server) && jobServerId == old(jobServerId)
      ensures oldDataStructure == old(oldDataStructure)
    {
      d := map[];
      assert items[0..] == items;
      for i := 0 to |items|
        invariant AssembleFrom(d, items[i..], oldDataStructure) == Assemble(items, oldDataStructure)
        invariant server == old(server) && jobServerId == old(jobServerId)
        invariant oldDataStructure == old(oldDataStructure)
      {
        assert items[i..][0] == items[i] && items[i..][1..] == items[i + 1..];
        var p := BuildRecord(items[i], oldDataStructure);
        d := d[items[i].name := p.rec];
        if p.err.Some? {
          err := p.err;
          AssembleNamed(items, oldDataStructure);
          return;
        }
      }
      assert items[|items|..] == [];
      err := None;
      AssembleNamed(items, oldDataStructure);
      AssembleKeys(items, oldDataStructure);
    }

    /** get_serverinfo and the other whole-map queries (getqueues, getnodes,
        getnodes_with_property, getjobs): the map of the reply's records. */
    method GetAll(items: seq<RawItem>) returns (r: Result<map<string, PbsObject>>)
      modifies this
      ensures Table(d, if r.Err? then Some(r.error) else None) == Assemble(items, oldDataStructure)
      ensures r.Ok? ==> r.value == d && d.Keys == ItemNames(items)
      ensures server == old(server) && jobServerId == old(jobServerId)
      ensures oldDataStructure == old(oldDataStructure)
    {
      var err := ListToDict(items);
      if err.Some? {
        return Err(err.value);
      }
      r := Ok(d);
    }

    /** getqueue and getnode: the record of the given name, or the whole
        map when the reply has none of that name. */
    method GetOne(name: string, items: seq<RawItem>) returns (r: Result<Lookup>)
      modifies this
      ensures Table(d, if r.Err? then Some(r.error) else None) == Assemble(items, oldDataStructure)
      ensures r.Ok? ==> r.value == Pick(d, name)
      ensures r.Ok? ==> (r.value.Found? <==> name in ItemNames(items))
      ensures r.Ok? && r.value.Found? ==> r.value.rec.name == Some(Str(name))
      ensures server == old(server) && jobServerId == old(jobServerId)
      ensures oldDataStructure == old(oldDataStructure)
    {
      var err := ListToDict(items);
      if err.Some? {
        return Err(err.value);
      }
      r := Ok(Pick(d, name));
    }

    /** getjob: the job name is completed with the job server id first,
        and that full name is looked up.  The full name is also what the
        source sends to the server; the reply is the parameter. */
    method GetJob(name: string, items: seq<RawItem>) returns (full: string, r: Result<Lookup>)
      modifies this
      ensures full == FullJobName(name, old(jobServerId))
      ensures Table(d, if r.Err? then Some(r.error) else None) == Assemble(items, oldDataStructure)
      ensures r.Ok? ==> r.value == Pick(d, full)
      ensures r.Ok? && r.value.Found? ==> r.value.rec.name == Some(Str(full))
      ensures server == old(server) && jobServerId == old(jobServerId)
      ensures oldDataStructure == old(oldDataStructure)
    {
      var parts := PyStr.Split(name, '.');
      if |parts| == 1 {
        full := parts[0] + "." + jobServerId;
      } else {
        full := name;
      }
      r := GetOne(full, items);
    }

    /** get_server_name. */
    method GetServerName() returns (s: string)
      ensures s == server
    {
      s := server;
    }
  }

  /** A soft miss: looking up a name the reply does not carry gives the
      whole map, never a record of another name. */
  lemma SoftMiss(items: seq<RawItem>, oldStructure: bool, name: string)
    requires Assemble(items, oldStructure).err.None?
    requires forall i :: 0 <= i < |items| ==> items[i].name != name
    ensures Pick(Assemble(items, oldStructure).d, name) == Whole(Assemble(items, oldStructure).d)
  {
    AssembleKeys(items, oldStructure);
  }

  /** A hit returns the record built from the last item of that name. */
  lemma LookupHit(items: seq<RawItem>, oldStructure: bool, i: nat)
    requires i < |items|
    requires forall j :: i < j < |items| ==> items[j].name != items[i].name
    requires Assemble(items, oldStructure).err.None?
    ensures Pick(Assemble(items, oldStructure).d, items[i].name) == Found(Record(items[i], oldStructure).rec)
  {
    AssembleLastWins(items, oldStructure, i);
  }
}
