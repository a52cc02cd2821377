/**
 * Loading a stack description: every instance and HA group is merged with
 * the defaults file's templates, then instances that ask for an address
 * sequence are expanded into numbered copies with consecutive addresses.
 *
 * The YAML files are given as values: `provision_instances` maps a project
 * name to its `ha_groups` and `instances`, each an ordered dict.
 */
module StackConfig {
  import opened Wrappers
  import opened Values
  import opened Text
  import opened Dicts
  import opened IpAddress

  /** A project as written in the stack file; an HA group body may be null. */
  datatype RawProject = RawProject(haGroups: Dict<Option<Spec>>, instances: Dict<Spec>)

  /** The defaults file: `provision_template` and `ha_groups_template`. */
  datatype Defaults = Defaults(provisionTemplate: Spec, haGroupsTemplate: Spec)

  /** A project after merging: every group and instance has a full body. */
  datatype Project = Project(haGroups: Dict<Spec>, instances: Dict<Spec>)

  /** The value under `provision_instances`: project name to project. */
  type Config = Dict<Project>

  // ---------------------------------------------------------------------
  // merge_default
  // ---------------------------------------------------------------------

  /** `base | top` on dicts, key by key: top wins, keys only in base stay. */
  predicate Overridden(base: Spec, top: Spec, merged: Spec) {
    && merged.Keys == base.Keys + top.Keys
    && (forall k :: k in top ==> merged[k] == top[k])
    && (forall k :: k in base && k !in top ==> merged[k] == base[k])
  }

  /** `vh if vh else {}`: a null group body counts as the empty one. */
  function GroupBody(body: Option<Spec>): Spec {
    if body.Some? then body.value else map[]
  }

  function MergeProject(d: Defaults, p: RawProject): Project {
    Project(
      MapValues(p.haGroups, (b: Option<Spec>) => d.haGroupsTemplate + GroupBody(b)),
      MapValues(p.instances, (s: Spec) => d.provisionTemplate + s))
  }

  /**
   * `merge_default`: project, instance and group names stay as they are,
   * in the same order; each instance is the provision template overridden
   * by the instance, each group the group template overridden by its body,
   * and a group with a null or empty body is exactly the template.
   */
  function MergeDefault(d: Defaults, config: Dict<RawProject>): (r: Config)
    ensures Keys(r) == Keys(config)
    ensures forall p :: 0 <= p < |r| ==>
      && |r[p].1.instances| == |config[p].1.instances|
      && |r[p].1.haGroups| == |config[p].1.haGroups|
      && Keys(r[p].1.instances) == Keys(config[p].1.instances)
      && Keys(r[p].1.haGroups) == Keys(config[p].1.haGroups)
    ensures forall p, i :: 0 <= p < |r| && 0 <= i < |r[p].1.instances| ==>
      Overridden(d.provisionTemplate, config[p].1.instances[i].1, r[p].1.instances[i].1)
    ensures forall p, g :: 0 <= p < |r| && 0 <= g < |r[p].1.haGroups| ==>
      && Overridden(d.haGroupsTemplate, GroupBody(config[p].1.haGroups[g].1), r[p].1.haGroups[g].1)
      && (config[p].1.haGroups[g].1 in {None, Some(map[])} ==> r[p].1.haGroups[g].1 == d.haGroupsTemplate)
  {
    MapValues(config, (p: RawProject) => MergeProject(d, p))
  }

  // ---------------------------------------------------------------------
  // expand: the pieces of one copy
  // ---------------------------------------------------------------------

  /** The instance asks for an address sequence: `ipsequence` is present and truthy. */
  predicate Sequenced(spec: Spec) {
    "ipsequence" in spec && Truthy(spec["ipsequence"])
  }

  /** What the `ipconfig` of a sequenced instance says. */
  datatype AddressPlan =
    | V4Plan(base: nat, mask: int, gateway: string)
    | V6Plan(base: nat, gateway: string)

  /** `x.split("=")[-1].strip()`. */
  function AfterEquals(x: string): string {
    Strip(Last(Split(x, '=')))
  }

  /**
   * The parse of `ipconfig` before the copy loop. It is an IPv6 setting when
   * "ip6" occurs anywhere in the text. Both forms need exactly one comma; the
   * IPv4 form also needs exactly one `/` between address and mask.
   */
  function ParseIpconfig(ipconfig: string, v6: V6Codec): (r: Outcome<AddressPlan>)
    ensures r.Ok? ==> (r.value.V6Plan? <==> Occurs("ip6", ipconfig))
    ensures r.Ok? ==> r.value.base < V6Limit
  {
    var parts := Split(ipconfig, ',');
    if |parts| != 2 then Err(ValueError("too many values to unpack"))
    else if Occurs("ip6", ipconfig) then
      match ParseAddress(AfterEquals(parts[0]), v6)
      case None => Err(ValueError("does not appear to be an IPv4 or IPv6 address"))
      case Some(ip) => Ok(V6Plan(ip, AfterEquals(parts[1])))
    else
      var pieces := Split(AfterEquals(parts[0]), '/');
      if |pieces| != 2 then Err(ValueError("too many values to unpack"))
      else
        match ParseAddress(pieces[0], v6)
        case None => Err(ValueError("does not appear to be an IPv4 or IPv6 address"))
        case Some(ip) =>
          match ParseInt(pieces[1])
          case None => Err(ValueError("invalid literal for int()"))
          case Some(m) => Ok(V4Plan(ip, m, AfterEquals(parts[1])))
  }

  /**
   * The parse fails unless the setting has exactly one comma, and, for
   * IPv4, unless the part after the first '=' has exactly one '/'.
   */
  lemma ParseIpconfigRejects(ipconfig: string, v6: V6Codec)
    ensures |Split(ipconfig, ',')| != 2 ==> ParseIpconfig(ipconfig, v6).Err?
    ensures !Occurs("ip6", ipconfig) && |Split(AfterEquals(Split(ipconfig, ',')[0]), '/')| != 2
            ==> ParseIpconfig(ipconfig, v6).Err?
  {
  }

  /** The gateway is the second comma piece after its last '=', stripped. */
  lemma ParsedGateway(ipconfig: string, v6: V6Codec)
    requires ParseIpconfig(ipconfig, v6).Ok?
    ensures |Split(ipconfig, ',')| == 2
    ensures ParseIpconfig(ipconfig, v6).value.gateway == AfterEquals(Split(ipconfig, ',')[1])
  {
  }

  /** The address plan and the count that bounds the copy loop. */
  function SequencePlan(spec: Spec, v6: V6Codec): Outcome<(AddressPlan, int)> {
    var cfg :- Field(spec, "ipconfig");
    var text :- AsText(cfg);
    var plan :- ParseIpconfig(text, v6);
    var c :- Field(spec, "count");
    var n :- AsInt(c);
    Ok((plan, n))
  }

  /** The `ipconfig` of copy `index`: address `base + index`, same mask and gateway. */
  function CopyIpconfig(plan: AddressPlan, index: nat, v6: V6Codec): Outcome<string> {
    match AddressText(plan.base + index, v6)
    case None => Err(ValueError("does not appear to be an IPv4 or IPv6 address"))
    case Some(a) =>
      if plan.V6Plan? then Ok(V6Setting(a, plan.gateway))
      else Ok(V4Setting(a, IntToString(plan.mask), plan.gateway))
  }

  /** `ip=<address>/<mask>,gw=<gateway>`. */
  function V4Setting(addr: string, mask: string, gateway: string): string {
    "ip=" + addr + "/" + mask + ",gw=" + gateway
  }

  /** `ip6=<address>,gw6=<gateway>`. */
  function V6Setting(addr: string, gateway: string): string {
    "ip6=" + addr + ",gw6=" + gateway
  }

  /** A copy: no `ipsequence`, its own `ipconfig`, `count` 1, every other key kept. */
  function Copy(spec: Spec, ipconfig: string): (r: Spec)
    ensures r.Keys == spec.Keys - {"ipsequence"} + {"ipconfig", "count"}
    ensures "ipsequence" !in r && r["count"] == Int(1) && r["ipconfig"] == Str(ipconfig)
    ensures forall k :: k in spec && k !in {"ipsequence", "ipconfig", "count"} ==> r[k] == spec[k]
  {
    (spec - {"ipsequence"})["ipconfig" := Str(ipconfig)]["count" := Int(1)]
  }

  // ---------------------------------------------------------------------
  // expand: the specification as a left fold
  // ---------------------------------------------------------------------

  /** Copies `index`..`count - 1` written into acc one after the other. */
  function PutCopies(acc: Dict<Spec>, name: string, spec: Spec, plan: AddressPlan, count: int,
                     index: nat, v6: V6Codec): Outcome<Dict<Spec>>
    decreases count - index
  {
    if index >= count then Ok(acc)
    else
      var text :- CopyIpconfig(plan, index, v6);
      PutCopies(Put(acc, CopyName(name, index), Copy(spec, text)), name, spec, plan, count, index + 1, v6)
  }

  /** One instance's contribution to the expanded instances. */
  function ExpandInstance(acc: Dict<Spec>, name: string, spec: Spec, v6: V6Codec): Outcome<Dict<Spec>> {
    if Sequenced(spec) then
      var sp :- SequencePlan(spec, v6);
      PutCopies(acc, name, spec, sp.0, sp.1, 0, v6)
    else Ok(Put(acc, name, spec))
  }

  function ExpandInstances(acc: Dict<Spec>, rest: Dict<Spec>, v6: V6Codec): Outcome<Dict<Spec>>
    decreases |rest|
  {
    if |rest| == 0 then Ok(acc)
    else
      var acc' :- ExpandInstance(acc, rest[0].0, rest[0].1, v6);
      ExpandInstances(acc', rest[1..], v6)
  }

  function ExpandProjects(acc: Config, rest: Config, v6: V6Codec): Outcome<Config>
    decreases |rest|
  {
    if |rest| == 0 then Ok(acc)
    else
      var instances :- ExpandInstances([], rest[0].1.instances, v6);
      ExpandProjects(Put(acc, rest[0].0, Project(rest[0].1.haGroups, instances)), rest[1..], v6)
  }

  function ExpandSpec(config: Config, v6: V6Codec): Outcome<Config> {
    ExpandProjects([], config, v6)
  }

  // ---------------------------------------------------------------------
  // expand: the loops
  // ---------------------------------------------------------------------

  /**
   * `expand`: walks the projects and their instances in order, copying plain
   * instances and writing the numbered copies of sequenced ones; HA groups
   * are carried over. Any exception aborts the whole expansion.
   */
  method Expand(config: Config, v6: V6Codec) returns (r: Outcome<Config>)
    ensures r == ExpandSpec(config, v6)
  {
    var expanded: Config := [];
    var p := 0;
    while p < |config|
      invariant 0 <= p <= |config|
      invariant ExpandProjects(expanded, config[p..], v6) == ExpandSpec(config, v6)
    {
      var project := config[p].0;
      var projectConfig := config[p].1;
      assert config[p..][0] == config[p] && config[p..][1..] == config[p + 1..];
      var instances := ExpandProjectInstances(projectConfig.instances, v6);
      if instances.Err? {
        return Err(instances.error);
      }
      expanded := Put(expanded, project, Project(projectConfig.haGroups, instances.value));
      p := p + 1;
    }
    return Ok(expanded);
  }

  /** The instance loop of `expand` for one project. */
  method ExpandProjectInstances(instances: Dict<Spec>, v6: V6Codec) returns (r: Outcome<Dict<Spec>>)
    ensures r == ExpandInstances([], instances, v6)
  {
    var expanded: Dict<Spec> := [];
    var j := 0;
    while j < |instances|
      invariant 0 <= j <= |instances|
      invariant ExpandInstances(expanded, instances[j..], v6) == ExpandInstances([], instances, v6)
    {
      var name, spec := instances[j].0, instances[j].1;
      assert instances[j..][0] == (name, spec) && instances[j..][1..] == instances[j + 1..];
      if Sequenced(spec) {
        var sp := SequencePlan(spec, v6);
        if sp.Err? {
          return Err(sp.error);
        }
        var copies := WriteCopies(expanded, name, spec, sp.value.0, sp.value.1, v6);
        if copies.Err? {
          return Err(copies.error);
        }
        expanded := copies.value;
      } else {
        expanded := Put(expanded, name, spec);
      }
      j := j + 1;
    }
    return Ok(expanded);
  }

  /** The copy loop of `expand`: `for index in range(0, count)`. */
  method WriteCopies(acc: Dict<Spec>, name: string, spec: Spec, plan: AddressPlan, count: int, v6: V6Codec)
    returns (r: Outcome<Dict<Spec>>)
    ensures r == PutCopies(acc, name, spec, plan, count, 0, v6)
  {
    var instances := acc;
    var index := 0;
    while index < count
      invariant PutCopies(instances, name, spec, plan, count, index, v6)
             == PutCopies(acc, name, spec, plan, count, 0, v6)
      decreases count - index
    {
      var text := CopyIpconfig(plan, index, v6);
      if text.Err? {
        return Err(text.error);
      }
      instances := Put(instances, CopyName(name, index), Copy(spec, text.value));
      index := index + 1;
    }
    return Ok(instances);
  }

  // ---------------------------------------------------------------------
  // expand: what the expansion contains
  // ---------------------------------------------------------------------

  /** The keys one instance's step writes, in order. */
  function Writes(name: string, spec: Spec, v6: V6Codec): seq<string> {
    if !Sequenced(spec) then [name]
    else
      match SequencePlan(spec, v6)
      case Ok(sp) => CopyNames(name, sp.1)
      case Err(_) => []
  }

  lemma {:induction false} PutCopiesKeys(acc: Dict<Spec>, name: string, spec: Spec, plan: AddressPlan,
                                         count: int, index: nat, v6: V6Codec)
    requires PutCopies(acc, name, spec, plan, count, index, v6).Ok?
    ensures forall k :: k in Keys(PutCopies(acc, name, spec, plan, count, index, v6).value) <==>
      k in Keys(acc) || exists i :: index <= i < count && k == CopyName(name, i)
    decreases count - index
  {
    if index < count {
      var text := CopyIpconfig(plan, index, v6).value;
      var acc' := Put(acc, CopyName(name, index), Copy(spec, text));
      PutCopiesGoesOn(acc, name, spec, plan, count, index, v6, text);
      PutKeys(acc, CopyName(name, index), Copy(spec, text));
      PutCopiesKeys(acc', name, spec, plan, count, index + 1, v6);
    }
  }

  /** After a copy whose ipconfig text is found, the copies go on from the next index. */
  lemma PutCopiesGoesOn(acc: Dict<Spec>, name: string, spec: Spec, plan: AddressPlan, count: int, index: nat,
                        v6: V6Codec, text: string)
    requires index < count && CopyIpconfig(plan, index, v6) == Ok(text)
    ensures PutCopies(acc, name, spec, plan, count, index, v6) ==
      PutCopies(Put(acc, CopyName(name, index), Copy(spec, text)), name, spec, plan, count, index + 1, v6)
  {
  }

  lemma {:induction false} PutCopiesUntouched(acc: Dict<Spec>, name: string, spec: Spec, plan: AddressPlan,
                                              count: int, index: nat, v6: V6Codec, key: string)
    requires PutCopies(acc, name, spec, plan, count, index, v6).Ok?
    requires forall i :: index <= i < count ==> key != CopyName(name, i)
    ensures Get(PutCopies(acc, name, spec, plan, count, index, v6).value, key) == Get(acc, key)
    decreases count - index
  {
    if index < count {
      var text := CopyIpconfig(plan, index, v6).value;
      var acc' := Put(acc, CopyName(name, index), Copy(spec, text));
      PutGet(acc, CopyName(name, index), Copy(spec, text), key);
      PutCopiesUntouched(acc', name, spec, plan, count, index + 1, v6, key);
    }
  }

  lemma {:induction false} PutCopiesGet(acc: Dict<Spec>, name: string, spec: Spec, plan: AddressPlan,
                                        count: int, index: nat, v6: V6Codec, i: nat)
    requires PutCopies(acc, name, spec, plan, count, index, v6).Ok?
    requires index <= i < count
    ensures CopyIpconfig(plan, i, v6).Ok?
    ensures Get(PutCopies(acc, name, spec, plan, count, index, v6).value, CopyName(name, i))
         == Some(Copy(spec, CopyIpconfig(plan, i, v6).value))
    decreases count - index
  {
    var text := CopyIpconfig(plan, index, v6).value;
    var acc' := Put(acc, CopyName(name, index), Copy(spec, text));
    if index == i {
      forall i' | index + 1 <= i' < count ensures CopyName(name, i) != CopyName(name, i') {
        CopyNamesDiffer(name, i, i');
      }
      PutCopiesUntouched(acc', name, spec, plan, count, index + 1, v6, CopyName(name, i));
      PutGet(acc, CopyName(name, index), Copy(spec, text), CopyName(name, i));
    } else {
      PutCopiesGet(acc', name, spec, plan, count, index + 1, v6, i);
    }
  }

  lemma ExpandInstanceKeys(acc: Dict<Spec>, name: string, spec: Spec, v6: V6Codec)
    requires ExpandInstance(acc, name, spec, v6).Ok?
    ensures forall k :: k in Keys(ExpandInstance(acc, name, spec, v6).value) <==>
      k in Keys(acc) || k in Writes(name, spec, v6)
  {
    if Sequenced(spec) {
      var sp := SequencePlan(spec, v6).value;
      PutCopiesKeys(acc, name, spec, sp.0, sp.1, 0, v6);
      var names := CopyNames(name, sp.1);
      assert forall k :: k in names <==> exists i :: 0 <= i < sp.1 && k == CopyName(name, i) by {
        forall k | k in names ensures exists i :: 0 <= i < sp.1 && k == CopyName(name, i) {
          var i :| 0 <= i < |names| && names[i] == k;
          assert 0 <= i < sp.1 && k == CopyName(name, i);
        }
        forall k | exists i :: 0 <= i < sp.1 && k == CopyName(name, i) ensures k in names {
          var i :| 0 <= i < sp.1 && k == CopyName(name, i);
          assert names[i] == k;
        }
      }
    } else {
      PutKeys(acc, name, spec);
    }
  }

  /**
   * The expanded instances hold exactly the names already there and the
   * names the steps write: a plain instance its own name, a sequenced one
   * with count N the names `<name>-0` .. `<name>-(N-1)` (none when N <= 0).
   */
  lemma {:induction false} ExpandInstancesKeys(acc: Dict<Spec>, rest: Dict<Spec>, v6: V6Codec)
    requires ExpandInstances(acc, rest, v6).Ok?
    ensures forall k :: k in Keys(ExpandInstances(acc, rest, v6).value) <==>
      k in Keys(acc) || exists j :: 0 <= j < |rest| && k in Writes(rest[j].0, rest[j].1, v6)
    decreases |rest|
  {
    if |rest| > 0 {
      var acc' := ExpandInstance(acc, rest[0].0, rest[0].1, v6).value;
      ExpandInstanceKeys(acc, rest[0].0, rest[0].1, v6);
      ExpandInstancesKeys(acc', rest[1..], v6);
      var r := ExpandInstances(acc, rest, v6).value;
      forall k ensures k in Keys(r) <==>
        k in Keys(acc) || exists j :: 0 <= j < |rest| && k in Writes(rest[j].0, rest[j].1, v6)
      {
        if exists j :: 0 <= j < |rest[1..]| && k in Writes(rest[1..][j].0, rest[1..][j].1, v6) {
          var j :| 0 <= j < |rest[1..]| && k in Writes(rest[1..][j].0, rest[1..][j].1, v6);
          assert rest[1..][j] == rest[j + 1];
        }
        if exists j :: 0 <= j < |rest| && k in Writes(rest[j].0, rest[j].1, v6) {
          var j :| 0 <= j < |rest| && k in Writes(rest[j].0, rest[j].1, v6);
          if j > 0 {
            assert rest[1..][j - 1] == rest[j];
          }
        }
      }
    }
  }

  /** A name no remaining step writes keeps its value. */
  lemma {:induction false} ExpandUntouched(acc: Dict<Spec>, rest: Dict<Spec>, v6: V6Codec, key: string)
    requires ExpandInstances(acc, rest, v6).Ok?
    requires forall j :: 0 <= j < |rest| ==> key !in Writes(rest[j].0, rest[j].1, v6)
    ensures Get(ExpandInstances(acc, rest, v6).value, key) == Get(acc, key)
    decreases |rest|
  {
    if |rest| > 0 {
      var name, spec := rest[0].0, rest[0].1;
      var acc' := ExpandInstance(acc, name, spec, v6).value;
      assert key !in Writes(name, spec, v6);
      if Sequenced(spec) {
        var sp := SequencePlan(spec, v6).value;
        forall i | 0 <= i < sp.1 ensures key != CopyName(name, i) {
          assert CopyNames(name, sp.1)[i] == CopyName(name, i);
        }
        PutCopiesUntouched(acc, name, spec, sp.0, sp.1, 0, v6, key);
      } else {
        PutGet(acc, name, spec, key);
      }
      forall j | 0 <= j < |rest[1..]| ensures key !in Writes(rest[1..][j].0, rest[1..][j].1, v6) {
        assert rest[1..][j] == rest[j + 1];
      }
      ExpandUntouched(acc', rest[1..], v6, key);
    }
  }

  /**
   * A plain instance passes through unchanged under its own name, unless a
   * later instance writes the same name (the later write wins).
   */
  lemma {:induction false} ExpandKeepsPlain(acc: Dict<Spec>, rest: Dict<Spec>, v6: V6Codec, j: nat)
    requires ExpandInstances(acc, rest, v6).Ok?
    requires j < |rest| && !Sequenced(rest[j].1)
    requires forall j' :: j < j' < |rest| ==> rest[j].0 !in Writes(rest[j'].0, rest[j'].1, v6)
    ensures Get(ExpandInstances(acc, rest, v6).value, rest[j].0) == Some(rest[j].1)
    decreases |rest|
  {
    var acc' := ExpandInstance(acc, rest[0].0, rest[0].1, v6).value;
    if j == 0 {
      forall j' | 0 <= j' < |rest[1..]| ensures rest[0].0 !in Writes(rest[1..][j'].0, rest[1..][j'].1, v6) {
        assert rest[1..][j'] == rest[j' + 1];
      }
      ExpandUntouched(acc', rest[1..], v6, rest[0].0);
      PutGet(acc, rest[0].0, rest[0].1, rest[0].0);
    } else {
      assert rest[1..][j - 1] == rest[j];
      forall j' | j - 1 < j' < |rest[1..]| ensures rest[j].0 !in Writes(rest[1..][j'].0, rest[1..][j'].1, v6) {
        assert rest[1..][j'] == rest[j' + 1];
      }
      ExpandKeepsPlain(acc', rest[1..], v6, j - 1);
    }
  }

  /**
   * Copy i of a sequenced instance is the instance with `ipsequence`
   * dropped, `count` 1 and the ipconfig of address `base + i`, unless a
   * later instance writes the same name.
   */
  lemma {:induction false} ExpandMakesCopy(acc: Dict<Spec>, rest: Dict<Spec>, v6: V6Codec, j: nat, i: nat)
    requires ExpandInstances(acc, rest, v6).Ok?
    requires j < |rest| && Sequenced(rest[j].1) && SequencePlan(rest[j].1, v6).Ok?
    requires i < SequencePlan(rest[j].1, v6).value.1
    requires forall j' :: j < j' < |rest| ==> CopyName(rest[j].0, i) !in Writes(rest[j'].0, rest[j'].1, v6)
    ensures CopyIpconfig(SequencePlan(rest[j].1, v6).value.0, i, v6).Ok?
    ensures Get(ExpandInstances(acc, rest, v6).value, CopyName(rest[j].0, i))
         == Some(Copy(rest[j].1, CopyIpconfig(SequencePlan(rest[j].1, v6).value.0, i, v6).value))
    decreases |rest|
  {
    var acc' := ExpandInstance(acc, rest[0].0, rest[0].1, v6).value;
    if j == 0 {
      var sp := SequencePlan(rest[0].1, v6).value;
      PutCopiesGet(acc, rest[0].0, rest[0].1, sp.0, sp.1, 0, v6, i);
      forall j' | 0 <= j' < |rest[1..]| ensures CopyName(rest[0].0, i) !in Writes(rest[1..][j'].0, rest[1..][j'].1, v6) {
        assert rest[1..][j'] == rest[j' + 1];
      }
      ExpandUntouched(acc', rest[1..], v6, CopyName(rest[0].0, i));
    } else {
      assert rest[1..][j - 1] == rest[j];
      forall j' | j - 1 < j' < |rest[1..]| ensures CopyName(rest[j].0, i) !in Writes(rest[1..][j'].0, rest[1..][j'].1, v6) {
        assert rest[1..][j'] == rest[j' + 1];
      }
      ExpandMakesCopy(acc', rest[1..], v6, j - 1, i);
    }
  }

  /** A sequenced instance whose ipconfig or count cannot be read makes the expansion fail. */
  lemma {:induction false} ExpandInstancesFails(acc: Dict<Spec>, rest: Dict<Spec>, v6: V6Codec, j: nat)
    requires j < |rest| && Sequenced(rest[j].1) && SequencePlan(rest[j].1, v6).Err?
    ensures ExpandInstances(acc, rest, v6).Err?
    decreases |rest|
  {
    var step := ExpandInstance(acc, rest[0].0, rest[0].1, v6);
    if j == 0 {
      assert step.Err?;
    } else if step.Ok? {
      assert ExpandInstances(acc, rest, v6) == ExpandInstances(step.value, rest[1..], v6);
      assert rest[1..][j - 1] == rest[j];
      ExpandInstancesFails(step.value, rest[1..], v6, j - 1);
    }
  }

  /**
   * With distinct project names, the expansion keeps the projects in order,
   * carries each project's HA groups over unchanged and holds the expansion
   * of its instances.
   */
  lemma {:induction false} ExpandProjectsShape(acc: Config, rest: Config, v6: V6Codec)
    requires ExpandProjects(acc, rest, v6).Ok?
    requires Valid(rest) && forall k :: 0 <= k < |rest| ==> rest[k].0 !in Keys(acc)
    ensures |ExpandProjects(acc, rest, v6).value| == |acc| + |rest|
    ensures ExpandProjects(acc, rest, v6).value[..|acc|] == acc
    ensures forall k :: 0 <= k < |rest| ==>
      var entry := ExpandProjects(acc, rest, v6).value[|acc| + k];
      && entry.0 == rest[k].0
      && entry.1.haGroups == rest[k].1.haGroups
      && ExpandInstances([], rest[k].1.instances, v6) == Ok(entry.1.instances)
    decreases |rest|
  {
    if |rest| > 0 {
      var instances := ExpandInstances([], rest[0].1.instances, v6).value;
      var entry := (rest[0].0, Project(rest[0].1.haGroups, instances));
      PutNew(acc, entry.0, entry.1);
      var acc' := acc + [entry];
      forall k | 0 <= k < |rest[1..]| ensures rest[1..][k].0 !in Keys(acc') {
        assert rest[1..][k] == rest[k + 1];
        assert rest[0].0 != rest[k + 1].0;
      }
      ExpandProjectsShape(acc', rest[1..], v6);
      var r := ExpandProjects(acc, rest, v6).value;
      assert r == ExpandProjects(acc', rest[1..], v6).value;
      assert r[..|acc|] == r[..|acc'|][..|acc|];
      forall k | 0 <= k < |rest|
        ensures r[|acc| + k].0 == rest[k].0
        ensures r[|acc| + k].1.haGroups == rest[k].1.haGroups
        ensures ExpandInstances([], rest[k].1.instances, v6) == Ok(r[|acc| + k].1.instances)
      {
        if k == 0 {
          assert r[|acc|] == r[..|acc'|][|acc|];
        } else {
          assert rest[1..][k - 1] == rest[k];
          assert r[|acc| + k] == r[|acc'| + (k - 1)];
        }
      }
    }
  }

  /**
   * `expand` keeps the project names in order, carries every project's HA
   * groups over unchanged, and each project's instances are the expansion
   * of its own instances.
   */
  lemma ExpandShape(config: Config, v6: V6Codec)
    requires Valid(config) && ExpandSpec(config, v6).Ok?
    ensures Keys(ExpandSpec(config, v6).value) == Keys(config)
    ensures forall p :: 0 <= p < |config| ==>
      && ExpandSpec(config, v6).value[p].1.haGroups == config[p].1.haGroups
      && ExpandInstances([], config[p].1.instances, v6) == Ok(ExpandSpec(config, v6).value[p].1.instances)
  {
    ExpandProjectsShape([], config, v6);
    SameKeys(ExpandSpec(config, v6).value, config);
  }

  /** Two dicts with the same key at every position have the same keys. */
  lemma SameKeys<U, V>(a: Dict<U>, b: Dict<V>)
    requires |a| == |b| && forall k :: 0 <= k < |a| ==> a[k].0 == b[k].0
    ensures Keys(a) == Keys(b)
  {
  }

  /** A project whose instances fail to expand (`bad`) makes the whole expansion fail. */
  lemma {:induction false} ExpandProjectsFails(acc: Config, rest: Config, v6: V6Codec, p: nat, bad: Dict<Spec>)
    requires p < |rest| && rest[p].1.instances == bad && ExpandInstances([], bad, v6).Err?
    ensures ExpandProjects(acc, rest, v6).Err?
    decreases |rest|
  {
    if ExpandInstances([], rest[0].1.instances, v6).Err? {
      ExpandProjectsStops(acc, rest, v6);
    } else {
      var instances := ExpandInstances([], rest[0].1.instances, v6).value;
      var acc' := Put(acc, rest[0].0, Project(rest[0].1.haGroups, instances));
      ExpandProjectsGoesOn(acc, rest, v6, instances);
      assert rest[1..][p - 1] == rest[p];
      ExpandProjectsFails(acc', rest[1..], v6, p - 1, bad);
    }
  }

  /** The walk stops at a project whose instances fail to expand. */
  lemma ExpandProjectsStops(acc: Config, rest: Config, v6: V6Codec)
    requires |rest| > 0 && ExpandInstances([], rest[0].1.instances, v6).Err?
    ensures ExpandProjects(acc, rest, v6).Err?
  {
  }

  /** After a project whose instances expand, the walk goes on from the next one. */
  lemma ExpandProjectsGoesOn(acc: Config, rest: Config, v6: V6Codec, instances: Dict<Spec>)
    requires |rest| > 0 && ExpandInstances([], rest[0].1.instances, v6) == Ok(instances)
    ensures ExpandProjects(acc, rest, v6) ==
      ExpandProjects(Put(acc, rest[0].0, Project(rest[0].1.haGroups, instances)), rest[1..], v6)
  {
  }

  /**
   * The expansion fails when a sequenced instance's ipconfig does not split
   * into exactly two comma-separated parts, or when its IPv4 side does not
   * split into exactly two parts at `/`.
   */
  lemma ExpandRejectsMalformedIpconfig(config: Config, v6: V6Codec, p: nat, j: nat, text: string)
    requires p < |config| && j < |config[p].1.instances|
    requires Sequenced(config[p].1.instances[j].1)
    requires "ipconfig" in config[p].1.instances[j].1 && config[p].1.instances[j].1["ipconfig"] == Str(text)
    requires || |Split(text, ',')| != 2
             || (!Occurs("ip6", text) && |Split(AfterEquals(Split(text, ',')[0]), '/')| != 2)
    ensures ExpandSpec(config, v6).Err?
  {
    ParseIpconfigRejects(text, v6);
    ExpandInstancesFails([], config[p].1.instances, v6, j);
    ExpandProjectsFails([], config, v6, p, config[p].1.instances);
  }

  // ---------------------------------------------------------------------
  // expand: the text of each copy reads back as the next address
  // ---------------------------------------------------------------------

  /** An IPv4 setting is its two comma pieces, each a key and a value around '='. */
  lemma V4SettingShape(addr: string, mask: string, g: string)
    ensures V4Setting(addr, mask, g) == ("ip" + ['='] + (addr + ['/'] + mask)) + [','] + ("gw" + ['='] + g)
  {
  }

  /** No "ip6" in an IPv4 setting unless the gateway brings it. */
  lemma NoIp6InV4Text(addr: string, mask: string, g: string)
    requires 'p' !in addr && 'p' !in mask && !Occurs("ip6", g)
    ensures !Occurs("ip6", V4Setting(addr, mask, g))
  {
    var head := "ip=" + addr + "/" + mask + ",gw=";
    var text := head + g;
    assert text == V4Setting(addr, mask, g);
    assert 'p' !in head[2..] by {
      assert head[2..] == "=" + addr + "/" + mask + ",gw=";
    }

    forall i | 0 <= i <= |text| - 3 ensures !PieceAt(text, i, "ip6") {
      if i >= |head| {
        assert text[i..i + 3] == g[i - |head|..i - |head| + 3];
        assert !PieceAt(g, i - |head|, "ip6");
      } else if i == |head| - 1 {
        assert text[i] == '=';
      } else if i == 0 {
        assert text[2] == '=';
      } else {
        assert text[i + 1] == head[2..][i - 1];
      }
    }

  }

  /** The IPv4 branch of the parse, given the pieces it finds. */
  lemma V4PiecesParse(text: string, left: string, right: string, addr: string, ip: string, mask: string,
                      b: nat, m: int, g: string, v6: V6Codec)
    requires !Occurs("ip6", text) && Split(text, ',') == [left, right]
    requires AfterEquals(left) == addr && AfterEquals(right) == g && Split(addr, '/') == [ip, mask]
    requires ParseIPv4(ip) == Some(b) && ParseInt(mask) == Some(m)
    ensures ParseIpconfig(text, v6) == Ok(V4Plan(b, m, g))
  {
  }

  /** The characters of an address and a mask. */
  predicate AddressChars(s: string) {
    forall ch :: ch in s ==> IsDigit(ch) || ch == '.' || ch == '-'
  }

  /** Address and mask characters include none of the separators. */
  lemma AddressCharsAvoid(s: string)
    requires AddressChars(s)
    ensures ',' !in s && '=' !in s && '/' !in s && 'p' !in s
  {
  }

  /** A character absent from both parts is absent from `part1/part2`. */
  lemma AbsentFromSlashed(a: string, b: string, ch: char)
    requires ch != '/' && ch !in a && ch !in b
    ensures ch !in a + ['/'] + b
  {
  }

  /** A character absent from both parts is absent from `key=part1/part2`. */
  lemma AbsentFromKeyed(key: string, a: string, b: string, ch: char)
    requires ch !in key && ch != '=' && ch != '/' && ch !in a && ch !in b
    ensures ch !in key + ['='] + (a + ['/'] + b)
  {
  }

  /** An IPv4 setting splits at its one comma into the address part and the gateway part. */
  lemma V4SettingCommaPieces(f: string, n: string, g: string)
    requires ',' !in f && ',' !in n && ',' !in g
    ensures Split(V4Setting(f, n, g), ',') == ["ip" + ['='] + (f + ['/'] + n), "gw" + ['='] + g]
  {
    V4SettingShape(f, n, g);
    AbsentFromKeyed("ip", f, n, ',');
    assert ',' !in "gw" + ['='] + g;
    SplitPair("ip" + ['='] + (f + ['/'] + n), "gw" + ['='] + g, ',');
  }

  /** The address part reads back as `address/mask`. */
  lemma V4AddressPart(f: string, n: string)
    requires '=' !in f && '=' !in n
    requires |f| >= 1 && IsDigit(f[0]) && |n| >= 1 && IsDigit(n[|n| - 1])
    ensures AfterEquals("ip" + ['='] + (f + ['/'] + n)) == f + ['/'] + n
  {
    var addr := f + ['/'] + n;
    assert addr[0] == f[0] && addr[|addr| - 1] == n[|n| - 1];
    StripClean(addr);
    AbsentFromSlashed(f, n, '=');
    AfterEqualsPair("ip", addr);
  }

  /** An IPv4 setting made of an address, a mask and a gateway parses back to them. */
  lemma V4TextParsesFrom(f: string, n: string, g: string, b: nat, m: int, v6: V6Codec)
    requires ParseIPv4(f) == Some(b) && ParseInt(n) == Some(m)
    requires AddressChars(f) && AddressChars(n)
    requires |f| >= 1 && IsDigit(f[0]) && |n| >= 1 && IsDigit(n[|n| - 1])
    requires ',' !in g && '=' !in g && Strip(g) == g && !Occurs("ip6", g)
    ensures ParseIpconfig(V4Setting(f, n, g), v6) == Ok(V4Plan(b, m, g))
  {
    AddressCharsAvoid(f);
    AddressCharsAvoid(n);
    NoIp6InV4Text(f, n, g);
    V4SettingCommaPieces(f, n, g);
    V4AddressPart(f, n);
    AfterEqualsPair("gw", g);
    SplitPair(f, n, '/');
    V4PiecesParse(V4Setting(f, n, g), "ip" + ['='] + (f + ['/'] + n), "gw" + ['='] + g,
                  f + ['/'] + n, f, n, b, m, g, v6);
  }

  /** An IPv4 setting written the way copies are written parses back to its parts. */
  lemma V4TextParses(b: nat, m: int, g: string, v6: V6Codec)
    requires b < V4Limit
    requires GatewayClean(g) && !Occurs("ip6", g)
    ensures ParseIpconfig(V4Setting(FormatIPv4(b), IntToString(m), g), v6) == Ok(V4Plan(b, m, g))
  {
    var n := IntToString(m);
    FormatIPv4Chars(b);
    assert AddressChars(n);
    assert |n| >= 1 && IsDigit(n[|n| - 1]);
    ParseFormatIPv4(b);
    ParseIntToString(m);
    V4TextParsesFrom(FormatIPv4(b), n, g, b, m, v6);
  }

  /** What `x.split("=")[-1].strip()` keeps: no '=', no surrounding space, nothing x lacks. */
  lemma AfterEqualsWithin(x: string)
    ensures '=' !in AfterEquals(x) && Strip(AfterEquals(x)) == AfterEquals(x)
    ensures Within(x, AfterEquals(x))
  {
    var last := Last(Split(x, '='));
    SplitPiecesAvoidSeparator(x, '=');
    SplitPiecesAreSlices(x, '=');
    StripWithin(last);
    StripTwice(last);
    WithinChars(last, Strip(last));
    WithinTrans(x, last, Strip(last));
  }

  /**
   * IPv4: copy i's ipconfig is `ip=<base+i>/<mask>,gw=<gateway>`; by
   * V4TextParses it reads back as address base + i with the same mask and
   * gateway.
   */
  lemma CopyIpconfigV4(plan: AddressPlan, i: nat, v6: V6Codec)
    requires plan.V4Plan? && plan.base + i < V4Limit
    ensures CopyIpconfig(plan, i, v6) == Ok(V4Setting(FormatIPv4(plan.base + i), IntToString(plan.mask), plan.gateway))
  {
    assert AddressText(plan.base + i, v6) == Some(FormatIPv4(plan.base + i));
  }

  /** A gateway as the parse leaves it: no ',' or '=' and no surrounding whitespace. */
  predicate GatewayClean(g: string) {
    ',' !in g && '=' !in g && Strip(g) == g
  }

  /** `(key + "=" + value).split("=")[-1].strip()` is value when value is clean. */
  lemma AfterEqualsPair(key: string, value: string)
    requires '=' !in key && '=' !in value && Strip(value) == value
    ensures AfterEquals(key + ['='] + value) == value
  {
    SplitPair(key, value, '=');
  }

  /** The gateway a parse returns is clean, and an IPv4 one has no "ip6" in it. */
  lemma ParsedGatewayClean(ipconfig: string, v6: V6Codec)
    requires ParseIpconfig(ipconfig, v6).Ok?
    ensures GatewayClean(ParseIpconfig(ipconfig, v6).value.gateway)
    ensures ParseIpconfig(ipconfig, v6).value.V4Plan? ==> !Occurs("ip6", ParseIpconfig(ipconfig, v6).value.gateway)
  {
    ParsedGateway(ipconfig, v6);
    GatewayFromPiece(ipconfig, Split(ipconfig, ',')[1], ParseIpconfig(ipconfig, v6).value.gateway);
  }

  /** The gateway read from the second comma piece carries no ',', '=' or "ip6" the setting lacks. */
  lemma GatewayFromPiece(ipconfig: string, piece: string, g: string)
    requires |Split(ipconfig, ',')| == 2 && piece == Split(ipconfig, ',')[1] && g == AfterEquals(piece)
    ensures ',' !in g && '=' !in g && Strip(g) == g
    ensures Occurs("ip6", g) ==> Occurs("ip6", ipconfig)
  {
    SplitPiecesAvoidSeparator(ipconfig, ',');
    SplitPiecesAreSlices(ipconfig, ',');
    AfterEqualsWithin(piece);
    WithinTrans(ipconfig, piece, g);
    WithinChars(piece, g);
    if Occurs("ip6", g) {
      var k :| PieceAt(ipconfig, k, g);
      OccursInPiece("ip6", ipconfig, k, g);
    }
  }

  /** An IPv6 setting is its two comma pieces, each a key and a value around '='. */
  lemma V6SettingShape(addr: string, g: string)
    ensures V6Setting(addr, g) == ("ip6" + ['='] + addr) + [','] + ("gw6" + ['='] + g)
    ensures PieceAt(V6Setting(addr, g), 0, "ip6")
  {
  }

  /** The IPv6 branch of the parse, given the pieces it finds. */
  lemma V6PiecesParse(text: string, left: string, right: string, addr: string, n: nat, g: string, v6: V6Codec)
    requires Occurs("ip6", text) && Split(text, ',') == [left, right]
    requires AfterEquals(left) == addr && AfterEquals(right) == g && ParseAddress(addr, v6) == Some(n)
    ensures ParseIpconfig(text, v6) == Ok(V6Plan(n, g))
  {
  }

  /** An IPv6 setting names itself "ip6" and splits at its one comma. */
  lemma V6SettingCommaPieces(addr: string, g: string)
    requires ',' !in addr && ',' !in g
    ensures Occurs("ip6", V6Setting(addr, g))
    ensures Split(V6Setting(addr, g), ',') == ["ip6" + ['='] + addr, "gw6" + ['='] + g]
  {
    V6SettingShape(addr, g);

    assert ',' !in "ip6" + ['='] + addr;
    assert ',' !in "gw6" + ['='] + g;
    SplitPair("ip6" + ['='] + addr, "gw6" + ['='] + g, ',');
  }

  /** The address and gateway parts of an IPv6 setting read back as themselves. */
  lemma V6SettingValues(addr: string, g: string)
    requires GatewayClean(addr) && GatewayClean(g)
    ensures AfterEquals("ip6" + ['='] + addr) == addr && AfterEquals("gw6" + ['='] + g) == g
  {
    AfterEqualsPair("ip6", addr);
    AfterEqualsPair("gw6", g);
  }

  /** An IPv6 setting made of a clean address text and gateway parses back to them. */
  lemma V6TextParses(addr: string, n: nat, g: string, v6: V6Codec)
    requires ParseAddress(addr, v6) == Some(n) && GatewayClean(addr) && GatewayClean(g)
    ensures ParseIpconfig(V6Setting(addr, g), v6) == Ok(V6Plan(n, g))
  {
    V6SettingCommaPieces(addr, g);
    V6SettingValues(addr, g);
    V6PiecesParse(V6Setting(addr, g), "ip6" + ['='] + addr, "gw6" + ['='] + g, addr, n, g, v6);
  }

  /**
   * IPv6: copy i's ipconfig is `ip6=<base+i>,gw6=<gateway>` with no prefix
   * length; an address below 2^32 prints as a dotted quad.
   */
  lemma CopyIpconfigV6(plan: AddressPlan, i: nat, v6: V6Codec)
    requires plan.V6Plan?
    ensures plan.base + i >= V6Limit <==> CopyIpconfig(plan, i, v6).Err?
    ensures plan.base + i < V4Limit ==>
      CopyIpconfig(plan, i, v6) == Ok(V6Setting(FormatIPv4(plan.base + i), plan.gateway))
    ensures V4Limit <= plan.base + i < V6Limit ==>
      CopyIpconfig(plan, i, v6) == Ok(V6Setting(v6.format(plan.base + i), plan.gateway))
  {
  }
}
