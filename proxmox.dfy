/**
 * The data-shaping helpers of the Proxmox client wrapper `Proxmox`: the
 * "internal" output passthrough, table rows, the cluster-log filter, the
 * HA-group flag conversion, HA-resource deletion, the VM lookup, the
 * `set_vms` payload, the boot-disk parse of `resize_vms_disk`, tag
 * collection, the rules of `delete_vms` and `clone_vm`, and the Ansible
 * inventory. The REST API is abstract: what it lists arrives as a
 * parameter, what it is asked to do comes back as the result.
 */
module Proxmox {
  import opened Wrappers
  import opened Values
  import opened Text
  import opened Dicts

  /**
   * A VM as `get_vms` lists it: `get_vms` fills a missing tag string with
   * "" and a missing address with "N/A".
   */
  datatype Vm = Vm(vmid: int, name: string, node: string, status: string, tags: string, ip: string)

  // ---------------------------------------------------------------------
  // output
  // ---------------------------------------------------------------------

  /**
   * `output(data, headers, output_format)`: "internal" hands the data back
   * untouched; json, yaml and table print or save it and return None.
   */
  function Output<T>(data: T, format: string): (r: Option<T>)
    ensures format == "internal" ==> r == Some(data)
    ensures format != "internal" ==> r == None
  {
    if format == "internal" then Some(data) else None
  }

  /** The raw-output test: a list holding one 3-tuple comes back as that list. */
  lemma OutputRawList()
    ensures var r := Output([("a", "b", " c")], "internal");
            r.Some? && |r.value| == 1 && r.value[0].0 == "a"
  {
  }

  // ---------------------------------------------------------------------
  // table
  // ---------------------------------------------------------------------

  /** A table cell: empty, the value as is, or the value in a colour. */
  datatype Cell = Blank | Plain(value: Value) | Colored(value: Value, color: string)

  /** `[word for word in words if word in text]`. */
  function Matching(words: seq<string>, text: string): (r: seq<string>)
    ensures forall w :: w in r <==> w in words && Occurs(w, text)
    decreases |words|
  {
    if words == [] then []
    else (if Occurs(words[0], text) then [words[0]] else []) + Matching(words[1..], text)
  }

  /**
   * The cell for one value of a row: empty when `str(value)` is empty,
   * coloured when exactly one colour word stands in it, plain otherwise.
   * `show` is Python's `str`.
   */
  function CellOf(v: Value, colorize: Dict<string>, show: Value -> string): Cell {
    var text := show(v);
    if |text| == 0 then Blank
    else
      var m := Matching(Keys(colorize), text);
      if |m| == 1 then Colored(v, Get(colorize, m[0]).GetOr("")) else Plain(v)
  }

  /** `element[header]` when the element has it, '' otherwise. */
  function RowValue(element: map<string, Value>, header: string): Value {
    if header in element then element[header] else Str("")
  }

  /** `table`: one row per element, one cell per header. */
  method TableRows(headers: seq<string>, data: seq<map<string, Value>>, colorize: Dict<string>,
                   show: Value -> string)
    returns (rows: seq<seq<Cell>>)
    ensures |rows| == |data|
    ensures forall i :: 0 <= i < |data| ==> |rows[i]| == |headers|
    ensures forall i, j :: 0 <= i < |data| && 0 <= j < |headers| ==>
      rows[i][j] == CellOf(RowValue(data[i], headers[j]), colorize, show)
  {
    rows := [];
    var i := 0;
    while i < |data|
      invariant 0 <= i <= |data| && |rows| == i
      invariant forall k :: 0 <= k < i ==> |rows[k]| == |headers|
      invariant forall k, j :: 0 <= k < i && 0 <= j < |headers| ==>
        rows[k][j] == CellOf(RowValue(data[k], headers[j]), colorize, show)
    {
      var element := data[i];
      var datarow := [];
      var j := 0;
      while j < |headers|
        invariant 0 <= j <= |headers| && |datarow| == j
        invariant forall h :: 0 <= h < j ==> datarow[h] == RowValue(element, headers[h])
      {
        if headers[j] in element {
          datarow := datarow + [element[headers[j]]];
        } else {
          datarow := datarow + [Str("")];
        }
        j := j + 1;
      }
      var row := [];
      j := 0;
      while j < |datarow|
        invariant 0 <= j <= |datarow| && |row| == j
        invariant forall h :: 0 <= h < j ==> row[h] == CellOf(datarow[h], colorize, show)
      {
        row := row + [CellOf(datarow[j], colorize, show)];
        j := j + 1;
      }
      rows := rows + [row];
      i := i + 1;
    }
  }

  /**
   * What a cell shows: nothing for an empty text, the colour of the one
   * colour word that stands in the text, or the plain value.
   */
  lemma CellMeaning(v: Value, colorize: Dict<string>, show: Value -> string)
    ensures CellOf(v, colorize, show).Blank? <==> show(v) == ""
    ensures !CellOf(v, colorize, show).Blank? ==> CellOf(v, colorize, show).value == v
    ensures CellOf(v, colorize, show).Colored? <==>
      show(v) != "" && |Matching(Keys(colorize), show(v))| == 1
  {
  }

  /**
   * A coloured cell takes the colour of a colour word standing in its
   * text, and no other colour word stands there.
   */
  lemma ColoredCell(v: Value, colorize: Dict<string>, show: Value -> string)
    requires CellOf(v, colorize, show).Colored?
    ensures exists w :: w in Keys(colorize) && Occurs(w, show(v)) && Get(colorize, w) == Some(CellOf(v, colorize, show).color)
    ensures forall w, u :: w in Keys(colorize) && u in Keys(colorize) && Occurs(w, show(v)) && Occurs(u, show(v)) ==> w == u
  {
    var m := Matching(Keys(colorize), show(v));
    assert |m| == 1;
    var w := m[0];
    assert w in m;
    assert CellOf(v, colorize, show).color == Get(colorize, w).GetOr("");
    assert Get(colorize, w).Some?;
    OnlyElement(m);
  }

  lemma OnlyElement(m: seq<string>)
    requires |m| == 1
    ensures forall w :: w in m ==> w == m[0]
  {
  }

  // ---------------------------------------------------------------------
  // get_cluster_log
  // ---------------------------------------------------------------------

  /** A cluster log entry: priority, node, time and message. */
  datatype LogEntry = LogEntry(pri: int, node: string, time: int, msg: string)

  /** A log `get_cluster_log` keeps, with its severity name added. */
  datatype KeptLog = KeptLog(log: LogEntry, severity: string)

  /** The names of the syslog priorities 0 to 7. */
  const SeverityNames: seq<string> :=
    ["panic", "alert", "critical", "error", "warning", "notice", "info", "debug"]

  /** `translate_severity[str(pri)]`: a priority outside 0..7 is a KeyError. */
  function SeverityName(pri: int): (r: Outcome<string>)
    ensures r.Ok? <==> 0 <= pri < 8
    ensures r.Ok? ==> r.value == SeverityNames[pri]
  {
    if 0 <= pri < 8 then Ok(SeverityNames[pri]) else Err(KeyError(IntToString(pri)))
  }

  /** `[x.strip() for x in s.split(",")]`: never an empty list. */
  function ListArgument(s: string): (r: seq<string>)
    ensures |r| == |Split(s, ',')| && |r| >= 1
    ensures forall k :: 0 <= k < |r| ==> r[k] == Strip(Split(s, ',')[k])
  {
    var parts := Split(s, ',');
    seq(|parts|, k requires 0 <= k < |parts| => Strip(parts[k]))
  }

  /** The filter of `get_cluster_log` over the first logs, in order. */
  function FilterLogs(logs: seq<LogEntry>, nodes: seq<string>, severities: seq<string>): Outcome<seq<KeptLog>>
    decreases |logs|
  {
    if logs == [] then Ok([])
    else
      var kept :- FilterLogs(logs[..|logs| - 1], nodes, severities);
      var last := logs[|logs| - 1];
      var severity :- SeverityName(last.pri);
      if severity in severities && last.node in nodes then Ok(kept + [KeptLog(last, severity)])
      else Ok(kept)
  }

  /**
   * The filter fails exactly when some log has an unknown priority; when
   * it does not, a log is kept, under its severity name, exactly when that
   * name is asked for and its node is listed.
   */
  lemma {:induction false} FilterLogsMeaning(logs: seq<LogEntry>, nodes: seq<string>, severities: seq<string>)
    ensures FilterLogs(logs, nodes, severities).Ok? <==> forall i :: 0 <= i < |logs| ==> 0 <= logs[i].pri < 8
    ensures FilterLogs(logs, nodes, severities).Ok? ==>
      forall k :: k in FilterLogs(logs, nodes, severities).value <==>
        k.log in logs && 0 <= k.log.pri < 8 && k.severity == SeverityNames[k.log.pri]
        && k.severity in severities && k.log.node in nodes
    decreases |logs|
  {
    if logs != [] {
      var init := logs[..|logs| - 1];
      FilterLogsMeaning(init, nodes, severities);
      assert forall i :: 0 <= i < |init| ==> init[i] == logs[i];
      assert forall l :: l in logs <==> l in init || l == logs[|logs| - 1];
    }
  }

  /** Once a prefix of the logs fails, every longer prefix fails the same way. */
  lemma {:induction false} FilterLogsFailsFrom(logs: seq<LogEntry>, nodes: seq<string>, severities: seq<string>,
                                               i: nat)
    requires i <= |logs| && FilterLogs(logs[..i], nodes, severities).Err?
    ensures FilterLogs(logs, nodes, severities) == FilterLogs(logs[..i], nodes, severities)
    decreases |logs| - i
  {
    if i < |logs| {
      assert logs[..i + 1][..i] == logs[..i];
      FilterLogsFailsFrom(logs, nodes, severities, i + 1);
    } else {
      assert logs[..i] == logs;
    }
  }

  /**
   * `get_cluster_log`: translates each priority (failing on an unknown
   * one), keeps the logs of the asked severities on the listed nodes,
   * returns None when nothing is kept and `output(kept)` otherwise.
   */
  method GetClusterLog(logs: seq<LogEntry>, nodes: string, severities: string, format: string)
    returns (r: Outcome<Option<seq<KeptLog>>>)
    ensures match FilterLogs(logs, ListArgument(nodes), ListArgument(severities))
            case Err(e) => r == Err(e)
            case Ok(kept) => r == Ok(if kept == [] then None else Output(kept, format))
  {
    var nodeList := ListArgument(nodes);
    var severityList := ListArgument(severities);
    var kept := [];
    var i := 0;
    while i < |logs|
      invariant 0 <= i <= |logs|
      invariant FilterLogs(logs[..i], nodeList, severityList) == Ok(kept)
    {
      var log := logs[i];
      assert logs[..i + 1][..i] == logs[..i] && logs[..i + 1][i] == log;
      var severity := SeverityName(log.pri);
      if severity.Err? {
        FilterLogsFailsFrom(logs, nodeList, severityList, i + 1);
        return Err(severity.error);
      }
      // `len(nodes) == 0` cannot hold: a split list is never empty.
      if severity.value in severityList && log.node in nodeList {
        kept := kept + [KeptLog(log, severity.value)];
      }
      i := i + 1;
    }
    assert logs[..i] == logs;
    if |kept| == 0 {
      return Ok(None);
    }
    return Ok(Output(kept, format));
  }

  /** An empty node argument lists the one node named "": no real node passes. */
  lemma EmptyNodeArgument()
    ensures ListArgument("") == [""]
  {
    assert Split("", ',') == [""];
    StripClean("");
  }

  // ---------------------------------------------------------------------
  // create_ha_group
  // ---------------------------------------------------------------------

  /**
   * `0 if flag is False else 1`: an identity test, so only the boolean
   * False gives 0; 0, None and "" give 1.
   */
  function FlagBit(flag: Value): (r: int)
    ensures r == 0 <==> flag == Bool(false)
    ensures r == 1 <==> flag != Bool(false)
  {
    if flag == Bool(false) then 0 else 1
  }

  /** The body `create_ha_group` posts. */
  datatype HaGroupRequest = HaGroupRequest(group: string, nodes: Value, nofailback: int, restricted: int)

  /** `create_ha_group(group, nodes, nofailback, restricted)`. */
  function CreateHaGroup(group: string, nodes: Value, nofailback: Value, restricted: Value): (r: HaGroupRequest)
    ensures r.group == group && r.nodes == nodes
    ensures r.nofailback in {0, 1} && r.restricted in {0, 1}
    ensures r.nofailback == 0 <==> nofailback == Bool(false)
    ensures r.restricted == 0 <==> restricted == Bool(false)
  {
    HaGroupRequest(group, nodes, FlagBit(nofailback), FlagBit(restricted))
  }

  // ---------------------------------------------------------------------
  // delete_ha_resources
  // ---------------------------------------------------------------------

  /** An HA resource as `get_ha_resources` lists it: its sid and its VM's name. */
  datatype HaResourceEntry = HaResourceEntry(sid: string, name: string)

  /** The resources deleted so far, and the exception that stopped the deletion, if any. */
  datatype Deletions = Deletions(deleted: seq<string>, raised: Option<Error>)

  /** `resource["vmid"]`: the text after the last ':' of the sid. */
  function SidVmid(sid: string): string {
    Last(Split(sid, ':'))
  }

  /** `int(resource["vmid"])`: None when the text is not a number. */
  function VmidOf(e: HaResourceEntry): Option<int> {
    ParseInt(SidVmid(e.sid))
  }

  /**
   * The loop over the resources whose VM name matches the filter: each
   * one with a positive vmid is deleted; a vmid that is not a number stops
   * the loop with a ValueError.
   */
  function FilterDeletions(resources: seq<HaResourceEntry>, matches: string -> bool): Deletions
    decreases |resources|
  {
    if resources == [] then Deletions([], None)
    else
      var d := FilterDeletions(resources[..|resources| - 1], matches);
      var last := resources[|resources| - 1];
      if d.raised.Some? || !matches(last.name) then d
      else
        match VmidOf(last)
        case None => Deletions(d.deleted, Some(ValueError("invalid literal for int()")))
        case Some(n) => if n > 0 then Deletions(d.deleted + [SidVmid(last.sid)], None) else d
  }

  /**
   * `delete_ha_resources(filter_name, vmid)` as written: after the
   * filtered deletions it compares `vmid > 0`, which raises a TypeError
   * when no vmid was given.
   */
  function DeleteHaResources(resources: seq<HaResourceEntry>, filterName: string, matches: string -> bool,
                             vmid: Option<int>): Deletions
  {
    var d := if filterName != "" then FilterDeletions(resources, matches) else Deletions([], None);
    if d.raised.Some? then d
    else
      match vmid
      case None => Deletions(d.deleted, Some(TypeError("'>' not supported between 'NoneType' and 'int'")))
      case Some(id) => if id > 0 then Deletions(d.deleted + [IntToString(id)], None) else d
  }

  /** As written, a call with a filter and no vmid always ends in an exception. */
  lemma DeleteByFilterAlwaysRaises(resources: seq<HaResourceEntry>, filterName: string, matches: string -> bool)
    ensures DeleteHaResources(resources, filterName, matches, None).raised.Some?
    ensures FilterDeletions(resources, matches).raised == None && filterName != "" ==>
      DeleteHaResources(resources, filterName, matches, None).raised.value.TypeError?
  {
  }

  /** The vmid comparison guarded against a missing vmid, as the command line's default -1 does. */
  function DeleteHaResourcesGuarded(resources: seq<HaResourceEntry>, filterName: string, matches: string -> bool,
                                    vmid: Option<int>): (r: Deletions)
    ensures vmid.Some? ==> r == DeleteHaResources(resources, filterName, matches, vmid)
  {
    DeleteHaResources(resources, filterName, matches, Some(vmid.GetOr(-1)))
  }

  /**
   * With the guard, deleting by filter alone deletes exactly the matching
   * resources with a positive numeric vmid, in order, and raises only on a
   * vmid that is not a number.
   */
  lemma {:induction false} FilterDeletionsRaise(resources: seq<HaResourceEntry>, matches: string -> bool)
    ensures FilterDeletions(resources, matches).raised == None <==>
      forall i :: 0 <= i < |resources| && matches(resources[i].name) ==> VmidOf(resources[i]).Some?
    decreases |resources|
  {
    if resources != [] {
      var init := resources[..|resources| - 1];
      var last := resources[|resources| - 1];
      assert FilterDeletions(resources, matches).raised == None <==>
        FilterDeletions(init, matches).raised == None && (matches(last.name) ==> VmidOf(last).Some?) by {
        FilterDeletionsStep(resources, matches);
      }
      assert FilterDeletions(init, matches).raised == None <==>
        forall i :: 0 <= i < |init| && matches(init[i].name) ==> VmidOf(init[i]).Some? by {
        FilterDeletionsRaise(init, matches);
      }
      NumberedSnoc(resources, matches);
    }
  }

  /** Every matching resource has a numeric vmid exactly when those before the last do and the last does. */
  lemma NumberedSnoc(resources: seq<HaResourceEntry>, matches: string -> bool)
    requires resources != []
    ensures var init := resources[..|resources| - 1];
      var last := resources[|resources| - 1];
      (forall i :: 0 <= i < |resources| && matches(resources[i].name) ==> VmidOf(resources[i]).Some?) <==>
      (forall i :: 0 <= i < |init| && matches(init[i].name) ==> VmidOf(init[i]).Some?)
        && (matches(last.name) ==> VmidOf(last).Some?)
  {
    var init := resources[..|resources| - 1];
    assert forall i :: 0 <= i < |init| ==> init[i] == resources[i];
  }

  lemma {:induction false} FilterDeletionsDeleted(resources: seq<HaResourceEntry>, matches: string -> bool)
    requires FilterDeletions(resources, matches).raised == None
    ensures forall t :: t in FilterDeletions(resources, matches).deleted <==>
      exists e :: e in resources && matches(e.name) && t == SidVmid(e.sid) && VmidOf(e).Some? && VmidOf(e).value > 0
    decreases |resources|
  {
    if resources != [] {
      var init := resources[..|resources| - 1];
      var last := resources[|resources| - 1];
      FilterDeletionsStep(resources, matches);
      FilterDeletionsDeleted(init, matches);
      assert forall e :: e in resources <==> e in init || e == last;
    }
  }

  /** One more resource: it raises when it matches and its vmid is not a number, and is deleted when positive. */
  lemma FilterDeletionsStep(resources: seq<HaResourceEntry>, matches: string -> bool)
    requires resources != []
    ensures var d := FilterDeletions(resources[..|resources| - 1], matches);
      var last := resources[|resources| - 1];
      var r := FilterDeletions(resources, matches);
      (r.raised == None <==> d.raised == None && (matches(last.name) ==> VmidOf(last).Some?))
      && (r.raised == None ==>
        r.deleted == d.deleted + (if matches(last.name) && VmidOf(last).value > 0 then [SidVmid(last.sid)] else []))
  {
  }

  lemma GuardedFilterDeletion(resources: seq<HaResourceEntry>, filterName: string, matches: string -> bool)
    requires filterName != ""
    ensures DeleteHaResourcesGuarded(resources, filterName, matches, None) == FilterDeletions(resources, matches)
  {
  }

  // ---------------------------------------------------------------------
  // get_vm_by_id_or_name
  // ---------------------------------------------------------------------

  /** The VM a lookup asks for: by id when a (non-zero) id is given, by name otherwise. */
  predicate Wanted(v: Vm, vmid: int, vmname: string) {
    if vmid != 0 then v.vmid == vmid else v.name == vmname
  }

  /** `get_vm_by_id_or_name(vmid, vmname)`: the first wanted VM, False (None) when none. */
  function VmByIdOrName(vms: seq<Vm>, vmid: int, vmname: string): (r: Option<Vm>)
    decreases |vms|
  {
    if vms == [] then None
    else if Wanted(vms[0], vmid, vmname) then Some(vms[0])
    else VmByIdOrName(vms[1..], vmid, vmname)
  }

  /** The lookup finds nothing exactly when no VM is wanted, and otherwise the first wanted one. */
  lemma {:induction false} VmByIdOrNameMeaning(vms: seq<Vm>, vmid: int, vmname: string)
    ensures VmByIdOrName(vms, vmid, vmname).None? <==> forall i :: 0 <= i < |vms| ==> !Wanted(vms[i], vmid, vmname)
    ensures VmByIdOrName(vms, vmid, vmname).Some? ==>
      exists i :: 0 <= i < |vms| && vms[i] == VmByIdOrName(vms, vmid, vmname).value
        && Wanted(vms[i], vmid, vmname) && forall j :: 0 <= j < i ==> !Wanted(vms[j], vmid, vmname)
    decreases |vms|
  {
    if vms != [] && !Wanted(vms[0], vmid, vmname) {
      VmByIdOrNameMeaning(vms[1..], vmid, vmname);
      if VmByIdOrName(vms[1..], vmid, vmname).Some? {
        var i :| 0 <= i < |vms[1..]| && vms[1..][i] == VmByIdOrName(vms[1..], vmid, vmname).value
          && Wanted(vms[1..][i], vmid, vmname) && forall j :: 0 <= j < i ==> !Wanted(vms[1..][j], vmid, vmname);
        assert vms[i + 1] == vms[1..][i];
        assert forall j :: 1 <= j < i + 1 ==> vms[j] == vms[1..][j - 1];
      } else {
        assert forall i :: 1 <= i < |vms| ==> vms[i] == vms[1..][i - 1];
      }
    }
  }

  // ---------------------------------------------------------------------
  // set_vms
  // ---------------------------------------------------------------------

  /** `value and value > 0`: a string, list or dict that is not empty cannot be compared. */
  function PositiveArg(v: Value): (r: Outcome<bool>)
    ensures r == Ok(true) <==> (v.Int? && v.i > 0) || v == Bool(true)
    ensures r.Err? <==> Truthy(v) && !v.Int? && !v.Bool?
  {
    if !Truthy(v) then Ok(false)
    else
      match v
      case Int(i) => Ok(i > 0)
      case Bool(b) => Ok(true)
      case _ => Err(TypeError("'>' not supported"))
  }

  /** `value and len(value) > 0`: a non-zero number has no length. */
  function FilledArg(v: Value): (r: Outcome<bool>)
    ensures r == Ok(true) <==> Truthy(v) && (v.Str? || v.Strs? || v.Dict?)
    ensures r.Err? <==> Truthy(v) && (v.Int? || v.Bool?)
  {
    if !Truthy(v) then Ok(false)
    else if v.Int? || v.Bool? then Err(TypeError("object has no len()"))
    else Ok(true)
  }

  /** The settings `set_vms` takes. */
  datatype VmSettings = VmSettings(cores: Value, sockets: Value, cpulimit: Value, memory: Value,
                                   cipassword: Value, citype: Value, ciuser: Value, ipconfig: Value,
                                   boot: Value, sshkey: Value)

  /** A character `quote` leaves as it is. */
  predicate Unreserved(c: char) {
    ('A' <= c <= 'Z') || ('a' <= c <= 'z') || ('0' <= c <= '9') || c == '_' || c == '.' || c == '-' || c == '~'
  }

  /** An upper-case hexadecimal digit. */
  function HexDigit(n: nat): (c: char)
    requires n < 16
    ensures Unreserved(c)
  {
    if n < 10 then DigitChar(n) else (55 + n) as char
  }

  /** The UTF-8 bytes of a character. */
  function Utf8(c: char): (bytes: seq<nat>)
    ensures 1 <= |bytes| <= 4
    ensures forall k :: 0 <= k < |bytes| ==> bytes[k] < 256
  {
    var n := c as int;
    if n < 0x80 then [n]
    else if n < 0x800 then [0xC0 + n / 64, 0x80 + n % 64]
    else if n < 0x10000 then [0xE0 + n / 4096, 0x80 + (n / 64) % 64, 0x80 + n % 64]
    else [0xF0 + n / 262144 % 8, 0x80 + (n / 4096) % 64, 0x80 + (n / 64) % 64, 0x80 + n % 64]
  }

  /** `%XX` for each byte. */
  function PercentBytes(bytes: seq<nat>): (r: string)
    requires forall k :: 0 <= k < |bytes| ==> bytes[k] < 256
    ensures |r| == 3 * |bytes|
    ensures forall k :: 0 <= k < |r| ==> Unreserved(r[k]) || r[k] == '%'
    decreases |bytes|
  {
    if bytes == [] then ""
    else ['%', HexDigit(bytes[0] / 16), HexDigit(bytes[0] % 16)] + PercentBytes(bytes[1..])
  }

  /** `urllib.parse.quote(s, safe='')`: every character but the unreserved ones percent-encoded. */
  function Quote(s: string): (r: string)
    ensures forall k :: 0 <= k < |r| ==> Unreserved(r[k]) || r[k] == '%'
    decreases |s|
  {
    if s == [] then ""
    else Quote(s[..|s| - 1]) + (if Unreserved(s[|s| - 1]) then [s[|s| - 1]] else PercentBytes(Utf8(s[|s| - 1])))
  }

  /** A text made of unreserved characters only is quoted as itself. */
  lemma {:induction false} QuoteUnreserved(s: string)
    requires forall k :: 0 <= k < |s| ==> Unreserved(s[k])
    ensures Quote(s) == s
    decreases |s|
  {
    if s != [] {
      QuoteUnreserved(s[..|s| - 1]);
    }
  }

  /** Every reserved character takes three characters or more in the quoted text. */
  lemma {:induction false} QuoteLength(s: string)
    ensures |Quote(s)| >= |s|
    ensures (exists k :: 0 <= k < |s| && !Unreserved(s[k])) ==> |Quote(s)| >= |s| + 2
    decreases |s|
  {
    if s != [] {
      QuoteLength(s[..|s| - 1]);
      assert forall k :: 0 <= k < |s| - 1 ==> s[..|s| - 1][k] == s[k];
    }
  }

  /** `sshkey and len(sshkey) > 0`, then `sshkey.strip()` that only a string has. */
  function SshKeyArg(v: Value): (r: Outcome<Option<string>>)
    ensures r.Ok? && r.value.Some? <==> v.Str? && v.s != []
    ensures r.Ok? && r.value.Some? ==> r.value.value == Quote(Strip(v.s))
  {
    var filled :- FilledArg(v);
    if !filled then Ok(None)
    else if v.Str? then Ok(Some(Quote(Strip(v.s))))
    else Err(AttributeError("object has no attribute 'strip'"))
  }

  /**
   * The arguments `set_vms` copies into its `data` dict, in order: each
   * with the key it goes under and whether it is a number (kept when
   * positive) or a text (kept when not empty).
   */
  function PayloadArguments(s: VmSettings): seq<(string, Value, bool)> {
    [("cores", s.cores, true), ("sockets", s.sockets, true), ("cpulimit", s.cpulimit, true),
     ("memory", s.memory, true), ("cipassword", s.cipassword, false), ("citype", s.citype, false),
     ("ciuser", s.ciuser, false), ("ipconfig0", s.ipconfig, false), ("boot", s.boot, false)]
  }

  /** Whether one argument enters the payload. */
  function Keep(arg: (string, Value, bool)): Outcome<bool> {
    if arg.2 then PositiveArg(arg.1) else FilledArg(arg.1)
  }

  /**
   * The `data` dict of `set_vms`: a number enters only when it is
   * positive, a text only when it is not empty, each under its key
   * (ipconfig under `ipconfig0`); the ssh key enters under `sshkeys`,
   * stripped and percent-encoded. An argument whose test raises fails.
   */
  method SetVmsPayload(s: VmSettings) returns (r: Outcome<map<string, Value>>)
    ensures r.Err? <==>
      (exists k :: 0 <= k < 9 && Keep(PayloadArguments(s)[k]).Err?) || SshKeyArg(s.sshkey).Err?
    ensures r.Ok? ==> forall k :: 0 <= k < 9 ==>
      (PayloadArguments(s)[k].0 in r.value <==> Keep(PayloadArguments(s)[k]) == Ok(true))
    ensures r.Ok? ==> forall k :: 0 <= k < 9 && PayloadArguments(s)[k].0 in r.value ==>
      r.value[PayloadArguments(s)[k].0] == PayloadArguments(s)[k].1
    ensures r.Ok? ==> ("sshkeys" in r.value <==> s.sshkey.Str? && s.sshkey.s != [])
    ensures r.Ok? && "sshkeys" in r.value ==> r.value["sshkeys"] == Str(Quote(Strip(s.sshkey.s)))
    ensures r.Ok? ==> forall key :: key in r.value ==>
      key == "sshkeys" || exists k :: 0 <= k < 9 && PayloadArguments(s)[k].0 == key
  {
    var args := PayloadArguments(s);
    var kept := KeptArguments(args);
    if kept.Err? {
      return Err(kept.error);
    }
    var data := kept.value;
    var key := SshKeyArg(s.sshkey);
    if key.Err? {
      return Err(key.error);
    }
    if key.value.Some? {
      data := data["sshkeys" := Str(key.value.value)];
    }
    return Ok(data);
  }

  /** The arguments that pass their test, each under its key; the first whose test raises fails. */
  method KeptArguments(args: seq<(string, Value, bool)>) returns (r: Outcome<map<string, Value>>)
    requires forall j, k :: 0 <= j < k < |args| ==> args[j].0 != args[k].0
    ensures r.Err? <==> exists k :: 0 <= k < |args| && Keep(args[k]).Err?
    ensures r.Ok? ==> forall k :: 0 <= k < |args| ==> (args[k].0 in r.value <==> Keep(args[k]) == Ok(true))
    ensures r.Ok? ==> forall k :: 0 <= k < |args| && args[k].0 in r.value ==> r.value[args[k].0] == args[k].1
    ensures r.Ok? ==> forall key :: key in r.value ==> exists k :: 0 <= k < |args| && args[k].0 == key
  {
    var data: map<string, Value> := map[];
    var i := 0;
    while i < |args|
      invariant 0 <= i <= |args|
      invariant forall k :: 0 <= k < i ==> Keep(args[k]).Ok?
      invariant forall k :: 0 <= k < |args| ==> (args[k].0 in data <==> k < i && Keep(args[k]) == Ok(true))
      invariant forall k :: 0 <= k < i && args[k].0 in data ==> data[args[k].0] == args[k].1
      invariant forall key :: key in data ==> exists k :: 0 <= k < i && args[k].0 == key
    {
      var keep := Keep(args[i]);
      if keep.Err? {
        return Err(keep.error);
      }
      if keep.value {
        data := data[args[i].0 := args[i].1];
      }
      i := i + 1;
    }
    return Ok(data);
  }

  // ---------------------------------------------------------------------
  // resize_vms_disk
  // ---------------------------------------------------------------------

  /** Entry k is the first of the entries that contains word. */
  predicate FirstContaining(entries: seq<string>, word: string, k: int) {
    0 <= k < |entries| && Occurs(word, entries[k]) && forall j :: 0 <= j < k ==> !Occurs(word, entries[j])
  }

  /** `[v for v in entries if word in v]`: the entries holding word, the first of them first. */
  function Containing(entries: seq<string>, word: string): (r: seq<string>)
    ensures forall e :: e in r <==> e in entries && Occurs(word, e)
    ensures forall k :: FirstContaining(entries, word, k) ==> r != [] && r[0] == entries[k]
    decreases |entries|
  {
    if entries == [] then []
    else
      var rest := Containing(entries[1..], word);
      assert forall e :: e in entries <==> e == entries[0] || e in entries[1..];
      assert forall k :: 0 < k && FirstContaining(entries, word, k) ==> FirstContaining(entries[1..], word, k - 1);
      (if Occurs(word, entries[0]) then [entries[0]] else []) + rest
  }

  /** The filter keeps the order of the entries: filtering a concatenation concatenates the filtered parts. */
  lemma {:induction false} ContainingConcat(a: seq<string>, b: seq<string>, word: string)
    ensures Containing(a + b, word) == Containing(a, word) + Containing(b, word)
    decreases |a|
  {
    if a == [] {
      assert a + b == b;
    } else {
      ContainingConcat(a[1..], b, word);
      assert (a + b)[1..] == a[1..] + b;
    }
  }

  /**
   * The default boot disk: the text after the first '=' of the first
   * `;`-separated boot entry that contains "order". There is none, and
   * the lookup raises, when no entry contains "order" or that entry holds
   * no '='.
   */
  function BootDisk(boot: string): (r: Outcome<string>)
    ensures (forall e :: e in Split(boot, ';') ==> !Occurs("order", e)) ==> r.Err?
    ensures forall k :: FirstContaining(Split(boot, ';'), "order", k) ==>
      (r.Ok? <==> |Split(Split(boot, ';')[k], '=')| >= 2) &&
      (r.Ok? ==> r.value == Split(Split(boot, ';')[k], '=')[1])
  {
    var withOrder := Containing(Split(boot, ';'), "order");
    if withOrder == [] then Err(IndexError("list index out of range"))
    else
      assert withOrder[0] in withOrder;
      var parts := Split(withOrder[0], '=');
      if |parts| < 2 then Err(IndexError("list index out of range"))
      else Ok(parts[1])
  }

  /** `order=<disk>;...`, Proxmox's own form, gives <disk>. */
  lemma BootDiskOfOrder(disk: string, rest: string)
    requires ';' !in disk && '=' !in disk
    ensures BootDisk("order=" + disk + ";" + rest) == Ok(disk)
  {
    var first := "order=" + disk;
    var boot := "order=" + disk + ";" + rest;
    OrderEntry(disk);
    assert boot == first + [';'] + rest;
    FirstEntry(first, rest, ';');
    var entries := Split(boot, ';');
    assert Containing(entries, "order")[0] == first;
  }

  lemma OrderEntry(disk: string)
    requires ';' !in disk && '=' !in disk
    ensures ';' !in "order=" + disk && Occurs("order", "order=" + disk)
    ensures Split("order=" + disk, '=') == ["order", disk]
  {
    var first := "order=" + disk;
    assert forall k :: 0 <= k < |first| ==> first[k] == (if k < 6 then "order="[k] else disk[k - 6]);
    assert PieceAt(first, 0, "order");
    assert first == "order" + ['='] + disk;
    SplitPair("order", disk, '=');
  }

  /** The first piece of a split is the text before the first separator. */
  lemma FirstEntry(first: string, rest: string, c: char)
    requires c !in first
    ensures Split(first + [c] + rest, c)[0] == first
  {
    SplitAround(first, rest, c);
    SplitNoSeparator(first, c);
  }

  /** The resize request: node, vmid, disk and size. */
  datatype ResizeCall = ResizeCall(node: string, vmid: int, disk: string, size: Value)

  /**
   * `resize_vms_disk(size, vmid, vmname, disk)`: a VM that cannot be found
   * and an empty configuration are errors; without a disk the boot disk of
   * the configuration is resized. `config` is what the configuration
   * endpoint returns for the VM.
   */
  function ResizeVmsDisk(vms: seq<Vm>, vmid: int, vmname: string, config: map<string, Value>, size: Value,
                         disk: Value): (r: Outcome<ResizeCall>)
    ensures VmByIdOrName(vms, vmid, vmname).None? ==> r == Err(VmNotFound)
    ensures VmByIdOrName(vms, vmid, vmname).Some? && config == map[] ==> r == Err(VmConfigGet)
    ensures r.Ok? ==> VmByIdOrName(vms, vmid, vmname).Some? && r.value.size == size
    ensures r.Ok? ==> r.value.node == VmByIdOrName(vms, vmid, vmname).value.node
    ensures r.Ok? ==> r.value.vmid == (if vmid != 0 then vmid else VmByIdOrName(vms, vmid, vmname).value.vmid)
    ensures r.Ok? && Truthy(disk) ==> disk == Str(r.value.disk)
    ensures r.Ok? && !Truthy(disk) ==> "boot" in config && config["boot"].Str?
    ensures r.Ok? && !Truthy(disk) ==> BootDisk(config["boot"].s) == Ok(r.value.disk)
    ensures VmByIdOrName(vms, vmid, vmname).Some? && config != map[] ==>
      (r.Ok? <==> (Truthy(disk) ==> disk.Str?) &&
                  (!Truthy(disk) ==> "boot" in config && config["boot"].Str? && BootDisk(config["boot"].s).Ok?))
  {
    match VmByIdOrName(vms, vmid, vmname)
    case None => Err(VmNotFound)
    case Some(vm) =>
      var id := if vmid != 0 then vmid else vm.vmid;
      if config == map[] then Err(VmConfigGet)
      else if Truthy(disk) then
        var name :- AsText(disk);
        Ok(ResizeCall(vm.node, id, name, size))
      else
        var boot :- Field(config, "boot");
        var text :- AsText(boot);
        var found :- BootDisk(text);
        Ok(ResizeCall(vm.node, id, found, size))
  }

  // ---------------------------------------------------------------------
  // get_tags
  // ---------------------------------------------------------------------

  /** `tags.replace(";", ",").split(",")`: no token is stripped. */
  function TagTokens(tags: string): seq<string> {
    Split(ReplaceChar(tags, ';', ','), ',')
  }

  /** The tag tokens of the VMs with a non-empty tag string. */
  function GetTags(vms: seq<Vm>): set<string>
    decreases |vms|
  {
    if vms == [] then {}
    else
      var last := vms[|vms| - 1];
      GetTags(vms[..|vms| - 1]) + (if |last.tags| > 0 then set t | t in TagTokens(last.tags) else {})
  }

  /** A tag is listed exactly when it is a token of some VM's non-empty tag string. */
  lemma {:induction false} GetTagsMeaning(vms: seq<Vm>)
    ensures forall t :: t in GetTags(vms) <==> exists v :: v in vms && |v.tags| > 0 && t in TagTokens(v.tags)
    decreases |vms|
  {
    if vms != [] {
      var init := vms[..|vms| - 1];
      GetTagsMeaning(init);
      assert forall v :: v in vms <==> v in init || v == vms[|vms| - 1];
    }
  }

  /** Tokens hold neither separator. */
  lemma TagTokensClean(tags: string)
    ensures forall k :: 0 <= k < |TagTokens(tags)| ==> ';' !in TagTokens(tags)[k] && ',' !in TagTokens(tags)[k]
  {
    var s := ReplaceChar(tags, ';', ',');
    SplitPiecesAvoidSeparator(s, ',');
    SplitPieceChars(s, ',');
    assert ';' !in s;
  }

  /** Splitting on ';' after turning ',' into ';' gives the same tokens as the other way round. */
  lemma {:induction false} SplitEitherWay(s: string)
    ensures Split(ReplaceChar(s, ',', ';'), ';') == Split(ReplaceChar(s, ';', ','), ',')
    decreases |s|
  {
    if |s| > 0 {
      SplitEitherWay(s[1..]);
      assert ReplaceChar(s, ',', ';')[1..] == ReplaceChar(s[1..], ',', ';');
      assert ReplaceChar(s, ';', ',')[1..] == ReplaceChar(s[1..], ';', ',');
    }
  }

  /** Joining separator-free tags with ',' and splitting again gives them back. */
  lemma TagTokensOfJoined(tags: seq<string>)
    requires |tags| >= 1
    requires forall k :: 0 <= k < |tags| ==> ';' !in tags[k] && ',' !in tags[k]
    ensures TagTokens(Join(tags, ",")) == tags
  {
    var s := Join(tags, ",");
    NoSemicolonInJoin(tags);
    assert ReplaceChar(s, ';', ',') == s;
    SplitJoin(tags, ',');
  }

  lemma {:induction false} NoSemicolonInJoin(tags: seq<string>)
    requires forall k :: 0 <= k < |tags| ==> ';' !in tags[k]
    ensures ';' !in Join(tags, ",")
    decreases |tags|
  {
    if |tags| > 1 {
      NoSemicolonInJoin(tags[1..]);
    }
  }

  // ---------------------------------------------------------------------
  // delete_vms and clone_vm
  // ---------------------------------------------------------------------

  /** The ids of the stopped VMs, in order. */
  function StoppedIds(vms: seq<Vm>): seq<int>
    decreases |vms|
  {
    if vms == [] then []
    else StoppedIds(vms[..|vms| - 1]) + (if vms[|vms| - 1].status == "stopped" then [vms[|vms| - 1].vmid] else [])
  }

  lemma {:induction false} StoppedIdsMeaning(vms: seq<Vm>)
    ensures forall id :: id in StoppedIds(vms) <==> exists v :: v in vms && v.status == "stopped" && v.vmid == id
    ensures |StoppedIds(vms)| <= |vms|
    decreases |vms|
  {
    if vms != [] {
      var init := vms[..|vms| - 1];
      StoppedIdsMeaning(init);
      assert forall v :: v in vms <==> v in init || v == vms[|vms| - 1];
    }
  }

  /**
   * `delete_vms(filter, vmid)` over the VMs the filter lists: by vmid, an
   * unlisted id is not found and a VM that is not stopped must be stopped
   * first; by filter, an empty listing is not found and only the stopped
   * VMs are deleted. The result is the ids to delete, in order.
   */
  function DeletedVms(listed: seq<Vm>, vmid: int): (r: Outcome<seq<int>>)
    ensures vmid > 0 && VmByIdOrName(listed, vmid, "").None? ==> r == Err(VmNotFound)
    ensures vmid > 0 && VmByIdOrName(listed, vmid, "").Some? ==>
      r == (if VmByIdOrName(listed, vmid, "").value.status != "stopped" then Err(VmNeedStop) else Ok([vmid]))
    ensures vmid <= 0 ==> r == (if listed == [] then Err(VmNotFound) else Ok(StoppedIds(listed)))
  {
    if vmid > 0 then
      match VmByIdOrName(listed, vmid, "")
      case None => Err(VmNotFound)
      case Some(vm) => if vm.status != "stopped" then Err(VmNeedStop) else Ok([vmid])
    else if listed == [] then Err(VmNotFound)
    else Ok(StoppedIds(listed))
  }

  /** `delete_vms`: the ids it deletes, one request per stopped VM. */
  method DeleteVms(listed: seq<Vm>, vmid: int) returns (r: Outcome<seq<int>>)
    ensures r == DeletedVms(listed, vmid)
  {
    if vmid > 0 {
      var vm := VmByIdOrName(listed, vmid, "");
      if vm.None? {
        return Err(VmNotFound);
      }
      if vm.value.status != "stopped" {
        return Err(VmNeedStop);
      }
      return Ok([vmid]);
    }
    if |listed| == 0 {
      return Err(VmNotFound);
    }
    var results := [];
    var i := 0;
    while i < |listed|
      invariant 0 <= i <= |listed|
      invariant results == StoppedIds(listed[..i])
    {
      assert listed[..i + 1][..i] == listed[..i];
      if listed[i].status == "stopped" {
        results := results + [listed[i].vmid];
      }
      i := i + 1;
    }
    assert listed[..i] == listed;
    return Ok(results);
  }

  /** `range(duplicate)`: a number, True counting as 1. */
  function RangeArg(v: Value): (r: Outcome<int>)
    ensures r.Ok? <==> v.Int? || v.Bool?
  {
    AsInt(v)
  }

  /** VM i is the first listed VM with that id. */
  predicate FirstWithId(vms: seq<Vm>, vmid: int, i: int) {
    0 <= i < |vms| && vms[i].vmid == vmid && forall j :: 0 <= j < i ==> vms[j].vmid != vmid
  }

  /**
   * `clone_vm(vmid, name, duplicate)`: the source must be listed and
   * stopped; without `duplicate` one clone named `name` is made, with
   * `duplicate = N` N clones named `name-0` .. `name-(N-1)`. The result is
   * the names of the clones, in the order they are made.
   */
  method CloneVm(vms: seq<Vm>, vmid: int, name: string, duplicate: Value) returns (r: Outcome<seq<string>>)
    ensures (forall i :: 0 <= i < |vms| ==> vms[i].vmid != vmid) ==> r == Err(VmNotFound)
    ensures VmByIdOrName(vms, vmid, "").Some? && vmid != 0 && VmByIdOrName(vms, vmid, "").value.status != "stopped"
      ==> r == Err(VmNeedStop)
    ensures r.Ok? && !Truthy(duplicate) ==> r.value == [name]
    ensures r.Ok? && Truthy(duplicate) ==> RangeArg(duplicate).Ok? && r.value == CopyNames(name, RangeArg(duplicate).value)
    ensures r.Ok? ==> exists i :: 0 <= i < |vms| && vms[i].vmid == vmid && vms[i].status == "stopped"
    ensures forall i :: FirstWithId(vms, vmid, i) && vms[i].status != "stopped" ==> r == Err(VmNeedStop)
    ensures forall i :: FirstWithId(vms, vmid, i) && vms[i].status == "stopped" ==>
      (r.Ok? <==> !Truthy(duplicate) || RangeArg(duplicate).Ok?)
  {
    var i := 0;
    while i < |vms| && vms[i].vmid != vmid
      invariant 0 <= i <= |vms|
      invariant forall j :: 0 <= j < i ==> vms[j].vmid != vmid
    {
      i := i + 1;
    }
    if i == |vms| {
      if vmid != 0 {
        VmByIdOrNameMeaning(vms, vmid, "");
      }
      return Err(VmNotFound);
    }
    if vmid != 0 {
      LookupByIdFindsFirst(vms, vmid, i);
    }
    if vms[i].status != "stopped" {
      return Err(VmNeedStop);
    }
    if !Truthy(duplicate) {
      return Ok([name]);
    }
    var count := RangeArg(duplicate);
    if count.Err? {
      return Err(count.error);
    }
    var names := [];
    var index := 0;
    while index < count.value
      invariant 0 <= index <= (if count.value < 0 then 0 else count.value)
      invariant names == CopyNames(name, index)
    {
      assert CopyNames(name, index + 1) == names + [CopyName(name, index)];
      names := names + [CopyName(name, index)];
      index := index + 1;
    }
    if count.value < 0 {
      assert |CopyNames(name, count.value)| == 0;
    }
    assert names == CopyNames(name, count.value);
    return Ok(names);
  }

  /** With a non-zero id, the lookup by id finds the first VM with that id. */
  lemma {:induction false} LookupByIdFindsFirst(vms: seq<Vm>, vmid: int, i: nat)
    requires vmid != 0 && i < |vms| && vms[i].vmid == vmid
    requires forall j :: 0 <= j < i ==> vms[j].vmid != vmid
    ensures VmByIdOrName(vms, vmid, "") == Some(vms[i])
    decreases i
  {
    if i > 0 {
      LookupByIdFindsFirst(vms[1..], vmid, i - 1);
    }
  }

  /** The clones of one call have pairwise different names. */
  lemma CloneNamesDistinct(name: string, count: int)
    ensures forall i, j :: 0 <= i < j < |CopyNames(name, count)| ==> CopyNames(name, count)[i] != CopyNames(name, count)[j]
  {
    forall i, j | 0 <= i < j < |CopyNames(name, count)|
      ensures CopyNames(name, count)[i] != CopyNames(name, count)[j]
    {
      CopyNamesDiffer(name, i, j);
    }
  }

  // ---------------------------------------------------------------------
  // inventory
  // ---------------------------------------------------------------------

  /** `{"all": {"hosts": {...}, "children": {tag: {"hosts": {...}}}}}`, hosts mapped to `ansible_host`. */
  datatype Inventory = Inventory(hosts: map<string, string>, children: map<string, map<string, string>>)

  /** `vm["ip"] and vm["ip"] != "N/A"`. */
  predicate Addressed(v: Vm) {
    v.ip != "" && v.ip != "N/A"
  }

  /** `set(exclude_tags) & set(tags)` is empty (`exclude_tags != ""` always holds for a list). */
  predicate Processed(v: Vm, excludeTag: string) {
    forall t :: t in Split(excludeTag, ',') ==> t !in TagTokens(v.tags)
  }

  /** `children[tag]["hosts"][name] = ip` for each tag in turn. */
  function AddToChildren(children: map<string, map<string, string>>, tags: seq<string>, name: string, ip: string)
    : map<string, map<string, string>>
    decreases |tags|
  {
    if tags == [] then children
    else
      var c := AddToChildren(children, tags[..|tags| - 1], name, ip);
      var t := tags[|tags| - 1];
      c[t := (if t in c then c[t] else map[])[name := ip]]
  }

  /** What one VM adds to the inventory. */
  function AddVm(inv: Option<Inventory>, v: Vm, excludeTag: string): Option<Inventory> {
    if !Addressed(v) then inv
    else
      var base := inv.GetOr(Inventory(map[], map[]));
      var hosts := base.hosts[v.name := v.ip];
      var children := if Processed(v, excludeTag) then AddToChildren(base.children, TagTokens(v.tags), v.name, v.ip)
                      else base.children;
      Some(Inventory(hosts, children))
  }

  /** The inventory of the VMs, one after the other. */
  function InventoryOf(vms: seq<Vm>, excludeTag: string): Option<Inventory>
    decreases |vms|
  {
    if vms == [] then None else AddVm(InventoryOf(vms[..|vms| - 1], excludeTag), vms[|vms| - 1], excludeTag)
  }

  /** The VMs the name filter keeps, in order: all of them with an empty filter. */
  function Selected(vms: seq<Vm>, filterName: string, matches: string -> bool): (r: seq<Vm>)
    ensures forall v :: v in r <==> v in vms && (filterName == "" || matches(v.name))
    decreases |vms|
  {
    if vms == [] then []
    else
      var init := Selected(vms[..|vms| - 1], filterName, matches);
      var last := vms[|vms| - 1];
      assert forall v :: v in vms <==> v in vms[..|vms| - 1] || v == last;
      if filterName == "" || matches(last.name) then init + [last] else init
  }

  /**
   * `inventory(exclude_tag, filter_name)`: the addressed VMs the name
   * filter keeps go under `all.hosts`; those none of whose tags is
   * excluded also go under each of their tags in `children`. `matches` is
   * `re.match` against the filter. The result is None when no VM is
   * addressed (`len(inventory) == 0`: nothing is printed).
   */
  method BuildInventory(vms: seq<Vm>, filterName: string, matches: string -> bool, excludeTag: string)
    returns (r: Option<Inventory>)
    ensures r == InventoryOf(Selected(vms, filterName, matches), excludeTag)
  {
    var enhanced := [];
    var i := 0;
    while i < |vms|
      invariant 0 <= i <= |vms|
      invariant enhanced == Selected(vms[..i], filterName, matches)
    {
      assert vms[..i + 1][..i] == vms[..i];
      if filterName != "" {
        if matches(vms[i].name) {
          enhanced := enhanced + [vms[i]];
        }
      } else {
        enhanced := enhanced + [vms[i]];
      }
      i := i + 1;
    }
    assert vms[..i] == vms;
    r := None;
    i := 0;
    while i < |enhanced|
      invariant 0 <= i <= |enhanced|
      invariant r == InventoryOf(enhanced[..i], excludeTag)
    {
      var v := enhanced[i];
      assert enhanced[..i + 1][..i] == enhanced[..i];
      if v.ip != "" && v.ip != "N/A" {
        var inv := r.GetOr(Inventory(map[], map[]));
        var hosts := inv.hosts[v.name := v.ip];
        var children := inv.children;
        if Processed(v, excludeTag) {
          children := AddTagged(children, TagTokens(v.tags), v.name, v.ip);
        }
        r := Some(Inventory(hosts, children));
      }
      i := i + 1;
    }
    assert enhanced[..i] == enhanced;
  }

  /** `children[tag]["hosts"][name] = ip` for each tag of one VM. */
  method AddTagged(children: map<string, map<string, string>>, tags: seq<string>, name: string, ip: string)
    returns (c: map<string, map<string, string>>)
    ensures c == AddToChildren(children, tags, name, ip)
  {
    c := children;
    var k := 0;
    while k < |tags|
      invariant 0 <= k <= |tags|
      invariant c == AddToChildren(children, tags[..k], name, ip)
    {
      assert tags[..k + 1][..k] == tags[..k];
      var t := tags[k];
      var entry := if t in c then c[t] else map[];
      c := c[t := entry[name := ip]];
      k := k + 1;
    }
    assert tags[..k] == tags;
  }

  /** After adding a VM under some tags, a tag lists a host exactly when it did before or the VM is that host under that tag. */
  lemma {:induction false} AddToChildrenMeaning(children: map<string, map<string, string>>, tags: seq<string>,
                                                name: string, ip: string, t: string, h: string)
    ensures var c := AddToChildren(children, tags, name, ip);
      (t in c && h in c[t]) <==> (t in children && h in children[t]) || (t in tags && h == name)
    decreases |tags|
  {
    if tags != [] {
      AddToChildrenMeaning(children, tags[..|tags| - 1], name, ip, t, h);
      assert forall x :: x in tags <==> x in tags[..|tags| - 1] || x == tags[|tags| - 1];
    }
  }

  /**
   * A host is listed exactly when some addressed VM has its name; a host
   * is listed under a tag exactly when some addressed, processed VM of
   * that name has the tag; there is an inventory exactly when some VM is
   * addressed.
   */
  lemma {:induction false} InventoryMeaning(vms: seq<Vm>, excludeTag: string, t: string, h: string)
    ensures InventoryOf(vms, excludeTag).Some? <==> exists v :: v in vms && Addressed(v)
    ensures InventoryOf(vms, excludeTag).Some? ==>
      (h in InventoryOf(vms, excludeTag).value.hosts <==> exists v :: v in vms && Addressed(v) && v.name == h)
    ensures InventoryOf(vms, excludeTag).Some? ==>
      (t in InventoryOf(vms, excludeTag).value.children && h in InventoryOf(vms, excludeTag).value.children[t] <==>
        exists v :: v in vms && Addressed(v) && v.name == h && Processed(v, excludeTag) && t in TagTokens(v.tags))
    decreases |vms|
  {
    if vms != [] {
      var init := vms[..|vms| - 1];
      var last := vms[|vms| - 1];
      InventoryMeaning(init, excludeTag, t, h);
      assert forall v :: v in vms <==> v in init || v == last;
      if Addressed(last) && Processed(last, excludeTag) {
        var base := InventoryOf(init, excludeTag).GetOr(Inventory(map[], map[]));
        AddToChildrenMeaning(base.children, TagTokens(last.tags), last.name, last.ip, t, h);
      }
    }
  }

  /** Adding a VM under its tags sets its address under each of them and keeps every other entry. */
  lemma {:induction false} AddToChildrenValue(children: map<string, map<string, string>>, tags: seq<string>,
                                              name: string, ip: string, t: string, h: string)
    ensures var c := AddToChildren(children, tags, name, ip);
      t in tags ==> t in c && name in c[t] && c[t][name] == ip
    ensures var c := AddToChildren(children, tags, name, ip);
      (t !in tags || h != name) && t in children && h in children[t] ==> t in c && h in c[t] && c[t][h] == children[t][h]
    decreases |tags|
  {
    if tags != [] {
      AddToChildrenValue(children, tags[..|tags| - 1], name, ip, t, h);
      assert forall x :: x in tags <==> x in tags[..|tags| - 1] || x == tags[|tags| - 1];
    }
  }

  /** VM i is the last addressed VM named h. */
  predicate LastHost(vms: seq<Vm>, h: string, i: int) {
    0 <= i < |vms| && Addressed(vms[i]) && vms[i].name == h &&
    forall j :: i < j < |vms| ==> !(Addressed(vms[j]) && vms[j].name == h)
  }

  /** VM i is the last addressed, processed VM named h that carries tag t. */
  predicate LastTagged(vms: seq<Vm>, excludeTag: string, t: string, h: string, i: int) {
    0 <= i < |vms| && Tagged(vms[i], excludeTag, t, h) &&
    forall j :: i < j < |vms| ==> !Tagged(vms[j], excludeTag, t, h)
  }

  predicate Tagged(v: Vm, excludeTag: string, t: string, h: string) {
    Addressed(v) && v.name == h && Processed(v, excludeTag) && t in TagTokens(v.tags)
  }

  /** A later VM of the same name overwrites an earlier one: a host's address is that of the last addressed VM of its name. */
  lemma {:induction false} InventoryHostValue(vms: seq<Vm>, excludeTag: string, h: string, i: int)
    requires LastHost(vms, h, i)
    ensures InventoryOf(vms, excludeTag).Some? && h in InventoryOf(vms, excludeTag).value.hosts
    ensures InventoryOf(vms, excludeTag).value.hosts[h] == vms[i].ip
    decreases |vms|
  {
    if i < |vms| - 1 {
      var init := vms[..|vms| - 1];
      assert LastHost(init, h, i);
      InventoryHostValue(init, excludeTag, h, i);
    }
  }

  /** Likewise under a tag: the address is that of the last addressed, processed VM of that name carrying the tag. */
  lemma {:induction false} InventoryChildValue(vms: seq<Vm>, excludeTag: string, t: string, h: string, i: int)
    requires LastTagged(vms, excludeTag, t, h, i)
    ensures InventoryOf(vms, excludeTag).Some?
    ensures var inv := InventoryOf(vms, excludeTag).value;
      t in inv.children && h in inv.children[t] && inv.children[t][h] == vms[i].ip
    decreases |vms|
  {
    var init := vms[..|vms| - 1];
    var last := vms[|vms| - 1];
    var base := InventoryOf(init, excludeTag).GetOr(Inventory(map[], map[]));
    if i < |vms| - 1 {
      assert LastTagged(init, excludeTag, t, h, i);
      InventoryChildValue(init, excludeTag, t, h, i);
      if Addressed(last) && Processed(last, excludeTag) {
        AddToChildrenValue(base.children, TagTokens(last.tags), last.name, last.ip, t, h);
      }
    } else {
      AddToChildrenValue(base.children, TagTokens(last.tags), last.name, last.ip, t, h);
    }
  }

  /**
   * With the default `exclude_tag=""` the exclude list is `[""]`, so a VM
   * whose tag string is empty (a single empty token) never reaches
   * `children`, although it is listed under `hosts`.
   */
  lemma DefaultExcludeSkipsUntagged(v: Vm)
    requires v.tags == ""
    ensures !Processed(v, "")
  {
    assert Split("", ',') == [""];
    assert ReplaceChar("", ';', ',') == "";
    assert "" in TagTokens(v.tags);
  }
}
