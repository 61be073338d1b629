# PBSQuery attribute decoding, modelled in Dafny

This project models the attribute-list decoding engine of `pbs/PBSQuery.py`
(pbs_python, the Python bindings for PBS/Torque). A status reply from the
batch server is a list of raw items. Each item has a name and attributes
`(name, resource, value)`. The engine turns them into records:

- `convert_range` expands slot text such as `3,5,7-9` into `['3','5','7','8','9']`.
- `REG_SPLIT_COMMA_BRACE` and `REG_SPLIT_EQUAL_BRACE` split a value on `,`
  or `=`, but never inside one parenthesised span. They are modelled as a
  scanner (`Splitter`) that reproduces `re.findall` on those patterns,
  including the lazy `.*?`, `.` not matching a newline, and `$` matching
  before a final newline.
- `REG_SUBRANGE` and `JOB_RE` are modelled as predicates and matchers.
- `_list_2_dict` is the record assembler (`Assembler`). It covers:
  - the old data structure;
  - plain lists;
  - resource sub-records;
  - `status` and `Variable_List` sub-records with their `event` and
    `error` entries.

  An exception leaves the result map holding the record as far as it got,
  because the source stores the record in `self.d` before filling it.
  Every Python exception the code can raise is an error value
  (`Base.PyError`), not a precondition.
- `_PBSobject` (`Records`) and the typed views (`Views`):
  - `job.is_running` and `job.get_nodes`;
  - `node.is_free`, `node.has_job` and `node.get_jobs`;
  - `queue.is_enabled` and `queue.is_execution`;
  - `server.get_version`.
- `PBSQuery` (`Query`) is a class holding the map of the last query, the
  data-structure flag and the job server id. It models:
  - the whole-map queries;
  - the soft-miss lookups of `getqueue`, `getnode` and `getjob`;
  - `getjob`'s name completion.

The loops of the source are methods proved against functions that state
what each loop computes: `convert_range`, the regrouping and expansion loops
of `get_nodes` and `get_jobs`, the loops of `_list_2_dict`, and `uniq`. The
properties are proved about those functions:

- round trips between written text and what the views read back;
- last-write-wins;
- names equal to keys;
- the error cases.

`Readback` relates what the scheduler writes to what the views return, all
the way through the assembler. `StatusExample` covers the status format
documented at pbs/PBSQuery.py:218-220, for every value of that shape.
`Findings` holds one defect of `get_nodes`.

Behaviour of the source worth noting, which the model keeps as written:

- `job.is_running` is true when `job_state` is `Q`, the queued state.
- `server.get_version` returns the whole `pbs_version` value, which is a
  list in the new data structure.
- `job.get_nodes` regroups subrange tokens from left to right, onto the
  entry before them. `node.get_jobs` regroups from right to left, onto the
  entry after them.
- `node.get_jobs(unique=False)` raises AttributeError, through
  `convert_range(None)`, on any entry that JOB_RE matches without a slot
  range. An example is the `419[1].master(...)` jobs value of the
  doctests, so no `slot/jobid` pairs come out of it.
- A non-integer subrange in `convert_range` and an `EVENT:` token with no
  `event` entry before it are the ValueError and KeyError the code raises.
  They are not preconditions.

## Model

| member | source | states |
|---|---|---|
| PyStr.Split | pbs/PBSQuery.py:94 | str.split on one character gives at least one piece, and no piece holds the separator |
| PyStr.JoinSplit | pbs/PBSQuery.py:377-378 | joining the pieces of s.split(c) with c gives s back |
| PyStr.SplitJoin | pbs/PBSQuery.py:94 | splitting the join of separator-free pieces gives those pieces back |
| PyStr.NatToStr | pbs/PBSQuery.py:100 | str(i) of a natural number is a non-empty run of digits with no leading zero |
| PyStr.ParseIntOfNatToStr | pbs/PBSQuery.py:95-97 | int(str(n)) == n |
| PyStr.NatToStrInjective | pbs/PBSQuery.py:100 | distinct slot numbers have distinct ids |
| Ranges.Decimals | pbs/PBSQuery.py:100 | range(lo, hi) has hi - lo ids, or none when hi <= lo |
| Ranges.RangeIds | pbs/PBSQuery.py:100 | the loop builds [str(i) for i in range(lo, hi)] |
| Ranges.PieceIds | pbs/PBSQuery.py:94-100 | one subrange: int() of the part before '-', up to int() of the part after it when there are exactly two parts; ValueError when int() rejects a part |
| Ranges.ConvertRange | pbs/PBSQuery.py:89-101 | the convert_range loop computes the concatenated expansion of the comma pieces, or the first ValueError |
| Ranges.SlotIdsOfFormat | pbs/PBSQuery.py:94-100 | a written subrange n or lo-hi expands to its slots |
| Ranges.ConvertRangeOfFormat | pbs/PBSQuery.py:89-101 | the text of any non-empty slot list expands to each subrange's ids, ascending, concatenated in written order |
| Ranges.SpanIds | pbs/PBSQuery.py:96-100 | lo-hi contributes lo, lo+1, ..., hi, and nothing when hi < lo |
| Ranges.DocstringExample | pbs/PBSQuery.py:91 | convert_range('3,5,7-9') == ['3','5','7','8','9'] |
| Ranges.ConvertRangeFails | pbs/PBSQuery.py:94-97 | the expansion succeeds exactly when int() accepts every part it reads, and the error is ValueError otherwise |
| Views.FormatSlotIsSubrange | pbs/PBSQuery.py:69 | REG_SUBRANGE matches every written subrange |
| Views.SubrangeHasNoSlash | pbs/PBSQuery.py:69 | a REG_SUBRANGE match holds no '/' and no '+' |
| Splitter.MatchAt | pbs/PBSQuery.py:77 | a match of the splitter pattern at the front of the input is a token: a head free of the delimiter and '(', then at most one parenthesised span |
| Splitter.Split | pbs/PBSQuery.py:77-84 | the findall of the comma or equals splitter yields only non-empty tokens of that shape |
| Splitter.MatchAtToken | pbs/PBSQuery.py:77 | a token followed by the delimiter, or by the end, is exactly what the pattern matches there |
| Splitter.SplitJoin | pbs/PBSQuery.py:70-84 | splitting the join of any tokens gives the tokens back |
| Splitter.JoinSplitIff | pbs/PBSQuery.py:72-74 | re-joining the split with the delimiter reproduces the input if and only if the input is a join of tokens |
| Splitter.ParenSpanStaysWhole | pbs/PBSQuery.py:77 | a delimiter inside a parenthesised span is never a split point |
| Splitter.SplitTrailingDelimiter | pbs/PBSQuery.py:84 | a trailing delimiter adds no empty token, so "key=" splits into ["key"] |
| Records.FromDict | pbs/PBSQuery.py:410-418 | a 'name' entry of dictin becomes the record's name and leaves the data; every other entry stays |
| Records.FromDictAsDict | pbs/PBSQuery.py:410-418 | building a record loses nothing of its dictionary |
| Records.GetValue | pbs/PBSQuery.py:420-424 | get_value gives the stored value, or None exactly when the key is absent |
| Records.ReturnValueEitherShape | pbs/PBSQuery.py:459-464 | return_value reads a scalar the same from the raw string and from the head of a list |
| Records.FirstValueIs | pbs/PBSQuery.py:459-464 | return_value(key) == expected; it fails exactly when return_value does, with the same KeyError or IndexError |
| Records.FirstSeen | pbs/PBSQuery.py:507-508 | the first-seen filter has no duplicates and the same elements as its input |
| Records.FirstSeenSnoc | pbs/PBSQuery.py:507-508 | one more item is appended exactly when it was not yet kept |
| Records.Uniq | pbs/PBSQuery.py:452-457 | uniq returns each item of the list once, and nothing else |
| Assembler.SetIn | pbs/PBSQuery.py:252 | new[key][sub] = v succeeds exactly when key holds a record; otherwise it raises KeyError, or TypeError for a list |
| Assembler.Nest | pbs/PBSQuery.py:250-258 | the sub-record is created when absent; otherwise it keeps its name and its other entries and gains only sub; the record keeps its name and other keys and gains only key; a list under the key is a TypeError |
| Assembler.Record | pbs/PBSQuery.py:186-190 | a record is named after its raw item |
| Assembler.ApplyEvents | pbs/PBSQuery.py:229-232 | the event loop computes AddEvents |
| Assembler.ApplyStatusToken | pbs/PBSQuery.py:216-258 | the body of the status loop computes StatusToken, with IndexError for a short split |
| Assembler.ApplyStatus | pbs/PBSQuery.py:213-258 | the status loop computes MergeStatus and stops at the first exception |
| Assembler.ApplyAttrib | pbs/PBSQuery.py:194-277 | merging one attribute computes MergeAttrib in both data structures |
| Assembler.BuildRecord | pbs/PBSQuery.py:186-277 | the attribute loop of one item computes Record |
| Assembler.CommaValuesJoin | pbs/PBSQuery.py:204-206 | the stored list joined with ',' is the raw value whenever the splitter reproduces it |
| Assembler.CommaValuesWhole | pbs/PBSQuery.py:205-206 | a value that splits into one token is stored as [value], unchanged |
| Assembler.CommaValuesOfTokens | pbs/PBSQuery.py:204 | a value made of several tokens is stored as those tokens |
| Assembler.MergeAttribsSnoc | pbs/PBSQuery.py:192 | one more attribute merges into the record the earlier ones built, unless they failed |
| Assembler.PlainAttribLastWins | pbs/PBSQuery.py:277 | a plain attribute overwrites any earlier value of its name with its value list |
| Assembler.OldAttribLastWins | pbs/PBSQuery.py:194-201 | old mode stores the raw string under "name.resource", or "name" without a resource, overwriting |
| Assembler.OldNeverFails | pbs/PBSQuery.py:194-201 | old mode raises nothing |
| Assembler.ResourceAttrib | pbs/PBSQuery.py:265-273 | a resource attribute lands at record[name][resource]; the sub-record is created from {resource: values} when absent, and otherwise keeps its name and other resources and gains only resource; the record's keys grow by name alone; a list under the name fails with TypeError and leaves the record |
| Assembler.AssembleNamed | pbs/PBSQuery.py:188-190 | every record in self.d is named after its key, also after an exception |
| Assembler.AssembleKeys | pbs/PBSQuery.py:184-188 | without an exception self.d holds exactly one record per item name |
| Assembler.AssembleLastWins | pbs/PBSQuery.py:188 | the record under a name is the one built from the last item of that name |
| Assembler.AddEventsMap | pbs/PBSQuery.py:242-245 | the event loop adds every segment's key and pieces to the event record, a later segment overriding, and does not fail |
| Assembler.MessageEventReplaces | pbs/PBSQuery.py:222-232 | message=EVENT:... replaces record['event'] by the pairs of its ':'-segments after the first |
| Assembler.EventTokenAdds | pbs/PBSQuery.py:240-245 | EVENT:... adds its pairs to the existing event record, and raises KeyError, leaving the record, when there is none |
| Assembler.MessageError | pbs/PBSQuery.py:234-238 | any other message=... token sets record['error'] to the pieces after "message" |
| Assembler.EmptyStatusEntry | pbs/PBSQuery.py:247-258 | key= stores the empty list under key in the nested record, creating it when absent |
| Assembler.ScalarEitherStructure | pbs/PBSQuery.py:194-206 | a plain one-token value is the raw string in old mode and [raw] in new mode, and return_value reads both the same |
| Assembler.EmptyValueDiffers | pbs/PBSQuery.py:201-206 | an empty value is "" in old mode and [] in new mode, where return_value raises IndexError |
| StatusExample.StatusEvents | pbs/PBSQuery.py:218-258 | status "message=EVENT:a=x,EVENT:b=y,c=z" gives event {a: [x], b: [y]} and status {c: [z]} and no exception |
| StatusExample.StatusPairAdds | pbs/PBSQuery.py:247-258 | a plain token c=z adds [z] under c to an existing status record, keeping its name and other entries |
| StatusExample.StatusPairsAccumulate | pbs/PBSQuery.py:213-258 | the status loop over plain pairs k=x raises nothing and merges the map {k: [x]} into an existing status record, later pairs winning |
| StatusExample.StatusPairsCollect | pbs/PBSQuery.py:213-258 | from a record without the attribute, plain pairs k=x collect into one new nested record {k: [x]}, later pairs winning, with no exception; no pair leaves the record as it was |
| StatusExample.PairTokensStored | pbs/PBSQuery.py:204-206 | plain pairs joined by ',' are stored as those pairs |
| StatusExample.StatusValueCollects | pbs/PBSQuery.py:204-258 | a whole status or Variable_List value of plain pairs becomes record[attr] = {k: [x]}, as node['status']['arch'] reads it |
| Query.Pick | pbs/PBSQuery.py:320-323 | a lookup returns d[name] when name is present and the whole map otherwise |
| Query.FullJobName | pbs/PBSQuery.py:377-378 | a job name without '.' gets "." + job_server_id appended; any other name is kept |
| Query.SinglePiece | pbs/PBSQuery.py:377 | name.split('.') has one piece exactly when name has no '.' |
| Query.FullJobNameIdempotent | pbs/PBSQuery.py:377-378 | completing a completed name changes nothing |
| Query.PbsQuery.constructor | pbs/PBSQuery.py:121-131 | a new query object holds its server and job server id, in the new data structure |
| Query.PbsQuery.NewDataStructure | pbs/PBSQuery.py:393-397 | clears the old-structure flag and nothing else |
| Query.PbsQuery.OldDataStructure | pbs/PBSQuery.py:399-404 | sets the old-structure flag and nothing else |
| Query.PbsQuery.ListToDict | pbs/PBSQuery.py:163-279 | self.d is rebuilt from the items, possibly partly when an exception stops it; its records are named after their keys; without an exception its keys are the item names |
| Query.PbsQuery.GetAll | pbs/PBSQuery.py:301-303 | the whole-map queries return self.d, holding one record per item name |
| Query.PbsQuery.GetOne | pbs/PBSQuery.py:345-350 | getnode and getqueue return the record of that name when the reply holds one, and self.d otherwise |
| Query.PbsQuery.GetJob | pbs/PBSQuery.py:373-384 | getjob completes the name first, then looks the full name up with the soft miss |
| Query.PbsQuery.GetServerName | pbs/PBSQuery.py:390-391 | returns the server name |
| Query.SoftMiss | pbs/PBSQuery.py:318-323 | a name the reply does not hold gives the whole map, never a record of another name |
| Query.LookupHit | pbs/PBSQuery.py:347-348 | a name the reply holds gives the record built from its last item |
| Views.IsRunning | pbs/PBSQuery.py:468-474 | true exactly when job_state reads 'Q'; it fails exactly when return_value does, with the same KeyError or IndexError |
| Views.GetNodes | pbs/PBSQuery.py:476-510 | get_nodes computes GetNodesSpec: [] for an absent or empty exec_host, else the entries expanded or their hosts |
| Views.RegroupNodeList | pbs/PBSQuery.py:489-498 | the list loop glues a bare subrange onto the entry before it and splits other tokens on '+'; IndexError when nothing precedes |
| Views.UniqueHosts | pbs/PBSQuery.py:500-508 | the unique loop keeps each host once, in first-seen order |
| Views.ExpandNodeList | pbs/PBSQuery.py:500-505 | the non-unique loop makes host/i for every slot i of every entry |
| Views.IsFree | pbs/PBSQuery.py:516-523 | true exactly when state reads 'free'; return_value's KeyError or IndexError is the error |
| Views.HasJob | pbs/PBSQuery.py:525-531 | true exactly when the record holds a jobs key |
| Views.Reversed | pbs/PBSQuery.py:554 | s[::-1] has the items of s in reverse order |
| Views.JobMatchAt | pbs/PBSQuery.py:86 | JOB_RE's optional range/ part and its job id matched at one position; the id is a non-empty line |
| Views.JobSearchFrom | pbs/PBSQuery.py:86 | JOB_RE.search tries '^' first, then every ',' |
| Views.ScanAt | pbs/PBSQuery.py:541 | a match of [^\ /]\d+[^/.] at the front of the text has that shape |
| Views.ScanJobs | pbs/PBSQuery.py:541 | every job id findall yields on a raw jobs string has the pattern's shape |
| Views.GetJobs | pbs/PBSQuery.py:533-573 | get_jobs returns what GetJobsSpec lists: [] for an absent or empty value, the scan of a string (unique: no duplicates, same ids), or the regrouped list's ids |
| Views.RegroupJobList | pbs/PBSQuery.py:549-558 | the right-to-left loop glues a bare subrange in front of the entry after it; IndexError when nothing follows |
| Views.CollectJobList | pbs/PBSQuery.py:560-573 | the extraction loop makes slot/jobid for every slot, or each job id once; AttributeError when JOB_RE fails or finds no range |
| Views.IsEnabled | pbs/PBSQuery.py:578-584 | true exactly when enabled reads 'True'; return_value's KeyError or IndexError is the error |
| Views.IsExecution | pbs/PBSQuery.py:586-592 | true exactly when queue_type reads 'Execution'; return_value's KeyError or IndexError is the error |
| Views.GetVersion | pbs/PBSQuery.py:597-598 | the whole pbs_version value, or None when absent |
| Views.FormatSlotsText | pbs/PBSQuery.py:86 | written slot text is all [\d,-] and ends in a digit, as JOB_RE's range group needs |
| Views.JobMatchOfSlots | pbs/PBSQuery.py:86 | JOB_RE on slots/jobid returns the slot text and the job id as its groups |
| Views.JobMatchOfFormat | pbs/PBSQuery.py:564-566 | a written entry matches JOB_RE with its slot text and job id |
| Views.CollectUnique | pbs/PBSQuery.py:567-569 | the unique extraction loop gives each job id once, in first-seen order |
| Views.GetJobsUnique | pbs/PBSQuery.py:549-573 | get_jobs(unique=True) on a list gives the first-seen job ids of the regrouped entries |
| Views.RegroupGlue | pbs/PBSQuery.py:554-556 | bare subranges in front of a token are glued onto it with ',' |
| Views.RegroupEntries | pbs/PBSQuery.py:549-558 | the right-to-left loop puts the comma tokens of written entries back into the entries, last first |
| Views.CollectSlots | pbs/PBSQuery.py:570-571 | the non-unique extraction loop expands every entry into its slot/jobid names |
| Views.EntriesMatch | pbs/PBSQuery.py:564-566 | JOB_RE finds every written entry with its job id |
| Views.GetJobsOfEntries | pbs/PBSQuery.py:533-573 | get_jobs() on the tokens of written entries lists slot/jobid for every slot, in written order |
| Views.GetJobsOfEntriesUnique | pbs/PBSQuery.py:533-573 | get_jobs(unique=True) on them lists each job id once, in written order |
| Views.PlacementParts | pbs/PBSQuery.py:502 | a written placement splits on '/' into its host and its slot text |
| Views.ExpandPlacements | pbs/PBSQuery.py:500-505 | the non-unique loop expands every placement into host/slot names |
| Views.HostsOfPlacements | pbs/PBSQuery.py:502 | the host read before '/' is the placement's host |
| Views.ExecHostEntries | pbs/PBSQuery.py:487-488 | an exec_host string splits on '+' into its placements |
| Views.GetNodesOfString | pbs/PBSQuery.py:483-510 | get_nodes on a string reads its '+'-entries |
| Views.GetNodesOfPlacements | pbs/PBSQuery.py:476-510 | get_nodes() on an exec_host string lists host/slot for every slot of every placement, in written order |
| Views.GetNodesOfPlacementsUnique | pbs/PBSQuery.py:476-510 | get_nodes(unique=True) on it lists each host once, in written order |
| Readback.StoredTokens | pbs/PBSQuery.py:204-206 | the new data structure stores the join of tokens as those tokens |
| Readback.StoredJobs | pbs/PBSQuery.py:204-206 | a written jobs value is stored as its comma tokens |
| Readback.JobsReadBack | pbs/PBSQuery.py:533-573 | a jobs value stored by _list_2_dict reads back as every slot/jobid, or each job id once |
| Readback.StoredOld | pbs/PBSQuery.py:194-201 | old mode stores a plain attribute's raw text |
| Readback.ExecHostReadBack | pbs/PBSQuery.py:476-510 | an exec_host stored in old mode reads back as every host/slot |
| Readback.ExecHostReadBackUnique | pbs/PBSQuery.py:500-508 | read back with unique=True: each host once, in written order |
| Readback.StoredExecHost | pbs/PBSQuery.py:204-206 | the new data structure stores such an exec_host as the text up to the last host's first range, then each further range |
| Readback.GlueRanges | pbs/PBSQuery.py:491-496 | the list loop glues a run of subranges onto the last entry, each after a ',' |
| Readback.RegroupExecHost | pbs/PBSQuery.py:489-498 | the list loop rebuilds the '+'-entries of such an exec_host from its stored tokens, as the comment node1/4,5,8-9 describes |
| Readback.ExecHostReadBackNew | pbs/PBSQuery.py:476-510 | an exec_host whose only commas are the last host's, stored in new mode, reads back as every host/slot, and unique as each host once in written order |
| Findings.TwoHostsStored | pbs/PBSQuery.py:204-206 | exec_host "h1/i,j+h2/k" is stored as the two tokens "h1/i" and "j+h2/k" |
| Findings.TwoHostsEntries | pbs/PBSQuery.py:489-498 | the list loop makes three entries of them: "h1/i", "j" and "h2/k" |
| Findings.GetNodesAsWritten | pbs/PBSQuery.py:489-505 | for any such exec_host in new mode, get_nodes() raises IndexError and get_nodes(unique=True) reports j as a host |
| Findings.GetNodesOldStructure | pbs/PBSQuery.py:487-505 | old mode reads the same exec_host as h1/i, h1/j, h2/k |
| Findings.FixedAgreesWithOld | pbs/PBSQuery.py:489-498 | corrected: the new data structure reads every splittable exec_host as the old one does |
| Findings.FixedOfPlacements | pbs/PBSQuery.py:489-505 | corrected: any token list that joins into an exec_host text reads as every host/slot |
| Findings.GetNodesCorrected | pbs/PBSQuery.py:489-505 | corrected on the failing input: h1/i, h1/j, h2/k |

## Left out

- The transport is not modelled, because it is a foreign C extension over a socket. The reply to each query is a parameter (`items`). This covers `_connect`, `_disconnect`, `_free`, the `pbs_stat*` calls and `_statserver`, `_statqueue`, `_statnode` and `_statjob` (pbs/PBSQuery.py:135-145, 281-371).
- The `__init__` round trip (pbs/PBSQuery.py:121-132) depends on the transport. The constructor takes the server and the job server id as parameters, so the `pbs_default()` fallback for an empty server is not modelled either.
- The attribute-name filter (`attrib_list`) and the `:property` select of `getnodes_with_property` only narrow what the server sends. The reply is the parameter.
- `_list_2_attrib` only fills a foreign `new_attrl` array.
- `_pbsstr_2_list` calls a misspelled module and is never called.
- `main` only prints.
- UserDict plumbing is left out: `__repr__`, `__str__`, `__iter__` and `__getattr__`. `__nonzero__` appears only as the truth test in `Views.Truthy`.
- Records are values. The source's `class_func` objects are mutable and shared by reference. The model rebuilds a record at every update, so aliasing is not captured. The partial record left in `self.d` by an exception is captured (`Assembler.Partial`, `Assembler.Table`).
- Records.Uniq: its order is left open, because Python 2 dictionary key order is unspecified. The same holds for `node.get_jobs(unique=True)` on a raw string (`Views.Listing.AnyOrder`).
- Iterating over a record stored under `exec_host` has no specified order, so it is the error `UnorderedIteration` rather than some order.
- The splitter doctests (pbs/PBSQuery.py:70-83) use two long literal strings. They are not instantiated. The round trip is proved for every input that is a join of tokens (Splitter.JoinSplitIff), which is the shape of both strings.
- StatusExample.StatusEvents is stated for every value of the documented shape. The line at pbs/PBSQuery.py:219 is one such value (a = "sample.time", x = "1288864220.003", b = "kernel", y = "upgrade", c = "cputotals.user", z = "0"). The literal itself is not instantiated.
- Assembler.EventTokenAdds: does not state the TypeError raised when `event` holds a list. `Assembler.SetIn` states it.
- Readback.ExecHostReadBack: stated for the old data structure only. For the new one, Readback.ExecHostReadBackNew covers exec_host values where only the last host has several ranges; values with a comma on a host other than the last read back wrong (see Findings).
- Integers are unbounded, as in Python. Python 2's `int()` is modelled for ASCII decimal text with optional whitespace and sign. The `long` suffix and other bases are not modelled.

## Findings

| source | as written | input that shows it | evidently intended | confidence | as-written member | corrected member |
|---|---|---|---|---|---|---|
| pbs/PBSQuery.py:489-498 | In the new data structure the comma splitter cuts exec_host `node1/4,5+node2/1` into `['node1/4', '5+node2/1']`. The second token is no bare subrange, so the loop splits it on '+', and the slot `5` becomes an entry of its own. | exec_host `node1/4,5+node2/1` in the new data structure: `get_nodes()` raises IndexError on `t[1]`, and `get_nodes(unique=True)` returns `node1`, `5`, `node2` | the old data structure's reading: `['node1/4', 'node1/5', 'node2/1']`, and `['node1', 'node2']` when unique | not executed; the loop's own comment covers only a single host | Findings.GetNodesAsWritten | Findings.GetNodesCorrected |

The corrected reading (`Findings.GetNodesFixedSpec`) joins the stored
tokens with ',' again before splitting on '+'.
`Findings.FixedAgreesWithOld` proves that it then agrees with the old
data structure on every exec_host the comma splitter reproduces.
`Views.GetNodes` keeps the behaviour as written.
