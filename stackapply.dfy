/**
 * What `stack apply` and `stack delete` do to the cluster and to the
 * stack's files: the saved plan and state documents, the six phases of an
 * apply run in order, and the teardown of a whole stack. Every phase is a
 * function of the cluster state (see ClusterState) and of the expanded
 * configuration, which the add phase writes vmids into.
 */
module StackApply {
  import opened Wrappers
  import opened Values
  import opened Text
  import opened Dicts
  import opened ClusterState
  import StackConfig
  import StackDiff
  import Proxmox

  // ---------------------------------------------------------------------
  // The plan and state files
  // ---------------------------------------------------------------------

  /** `~/.proxcli/<stack>.state` or `~/.proxcli/<stack>.plan`. */
  datatype FileKind = StateFile | PlanFile

  /** A saved document: a plan in a plan file, a project in a state file. */
  datatype Document = PlanDoc(plan: StackDiff.Plan) | StateDoc(project: StackConfig.Project)

  /** The files under `~/.proxcli`, by stack and kind. */
  type Files = map<(string, FileKind), Document>

  /** Plan files hold plans and state files hold projects. */
  predicate FilesValid(files: Files) {
    forall key :: key in files ==> (files[key].PlanDoc? <==> key.1 == PlanFile)
  }

  /** `load_stack_data`'s choice of file: "state" reads the state, any other type the plan. */
  function KindOf(fileType: string): (k: FileKind)
    ensures k == StateFile <==> fileType == "state"
  {
    if fileType == "state" then StateFile else PlanFile
  }

  /** `load_stack_data(stack, file_type)`: the document, or None when the file does not exist. */
  function Load(files: Files, stack: string, fileType: string): (r: Option<Document>)
    ensures r.Some? <==> (stack, KindOf(fileType)) in files
    ensures r.Some? ==> r.value == files[(stack, KindOf(fileType))]
  {
    if (stack, KindOf(fileType)) in files then Some(files[(stack, KindOf(fileType))]) else None
  }

  /** `stack_write_plan(stack, plan)`: the plan file replaced. */
  function StorePlan(files: Files, stack: string, plan: StackDiff.Plan): Files {
    files[(stack, PlanFile) := PlanDoc(plan)]
  }

  /** `expanded["provision_instances"][stack]`, empty when absent. */
  function Desired(expanded: StackConfig.Config, stack: string): StackConfig.Project {
    Get(expanded, stack).GetOr(StackConfig.Project([], []))
  }

  /**
   * `stack_write_state(stack, config)`: the state file gets the stack's
   * expanded configuration as it is now; the config argument is not used.
   */
  function StoreState(files: Files, stack: string, expanded: StackConfig.Config): (r: Outcome<Files>)
    ensures r.Err? <==> stack !in Keys(expanded)
    ensures r.Err? ==> r.error == KeyError(stack)
  {
    match Get(expanded, stack)
    case None => Err(KeyError(stack))
    case Some(project) => Ok(files[(stack, StateFile) := StateDoc(project)])
  }

  /** Writing a plan and loading it back gives the plan; every other file is untouched. */
  lemma PlanRoundTrip(files: Files, stack: string, plan: StackDiff.Plan, fileType: string, other: (string, FileKind))
    requires fileType != "state"
    requires other != (stack, PlanFile)
    ensures Load(StorePlan(files, stack, plan), stack, fileType) == Some(PlanDoc(plan))
    ensures other in StorePlan(files, stack, plan) <==> other in files
    ensures other in files ==> StorePlan(files, stack, plan)[other] == files[other]
    ensures FilesValid(files) ==> FilesValid(StorePlan(files, stack, plan))
  {
  }

  /**
   * Writing the state and loading it back gives the stack's expanded
   * configuration, whatever project the caller passed; every other file
   * is untouched.
   */
  lemma StateRoundTrip(files: Files, stack: string, expanded: StackConfig.Config, other: (string, FileKind))
    requires stack in Keys(expanded)
    requires other != (stack, StateFile)
    ensures var r := StoreState(files, stack, expanded);
      && r.Ok?
      && Load(r.value, stack, "state") == Some(StateDoc(Get(expanded, stack).value))
      && (other in r.value <==> other in files)
      && (other in files ==> r.value[other] == files[other])
      && (FilesValid(files) ==> FilesValid(r.value))
  {
  }

  // ---------------------------------------------------------------------
  // A run of stack_apply
  // ---------------------------------------------------------------------

  /** `<stack>-<name>`: the cluster name of a stack's group or instance. */
  function Qualified(stack: string, name: string): string {
    stack + "-" + name
  }

  /**
   * The state an apply run carries from step to step: the cluster, the
   * expanded configuration, the instance `cfg_instances` is bound to, and
   * the exception that ended the run, if any.
   */
  datatype Run = Run(world: World, expanded: StackConfig.Config, bound: Option<string>, raised: Option<Error>)

  function Fail(r: Run, e: Error): Run {
    r.(raised := Some(e))
  }

  /** `content[key]["new"] if key in content else None`. */
  function NewValue(content: Dict<StackDiff.Delta>, key: string): Value {
    match Get(content, key)
    case None => Null
    case Some(d) => d.newValue
  }

  // --- HA groups removed ------------------------------------------------

  /** A removed group: its resources are deleted, then the group. */
  function GroupRemoved(w: World, name: string): World {
    AfterDeleteGroup(AfterDeleteGroupResources(w, name), name)
  }

  function RemoveGroups(w: World, stack: string, groups: seq<string>): World
    decreases |groups|
  {
    if groups == [] then w
    else RemoveGroups(GroupRemoved(w, Qualified(stack, groups[0])), stack, groups[1..])
  }

  /** The calls removing the groups make: for each, its resources and then the group. */
  function RemovalCalls(stack: string, groups: seq<string>): seq<Call>
    decreases |groups|
  {
    if groups == [] then []
    else
      var name := Qualified(stack, groups[0]);
      [DeleteGroupResources(name), DeleteGroup(name)] + RemovalCalls(stack, groups[1..])
  }

  // --- HA groups added --------------------------------------------------

  /** `create_ha_group` with `content["nodes"]`, `["nofailback"]` and `["restricted"]`, read in that order. */
  function GroupRequest(name: string, content: Spec): (r: Outcome<Proxmox.HaGroupRequest>)
    ensures r.Ok? <==> "nodes" in content && "nofailback" in content && "restricted" in content
    ensures r.Ok? ==> r.value.group == name && r.value.nodes == content["nodes"]
    ensures r.Err? ==> r.error.KeyError?
  {
    var nodes :- Field(content, "nodes");
    var nofailback :- Field(content, "nofailback");
    var restricted :- Field(content, "restricted");
    Ok(Proxmox.CreateHaGroup(name, nodes, nofailback, restricted))
  }

  /** An added group: read from the desired project, created unless a group of that name exists. */
  function GroupAdded(r: Run, stack: string, group: string): Run {
    match Get(Desired(r.expanded, stack).haGroups, group)
    case None => Fail(r, KeyError(group))
    case Some(content) =>
      var name := Qualified(stack, group);
      if name in r.world.groups then r
      else
        match GroupRequest(name, content)
        case Err(e) => Fail(r, e)
        case Ok(request) => r.(world := AfterCreateGroup(r.world, request))
  }

  function AddGroups(r: Run, stack: string, groups: seq<string>): Run
    decreases |groups|
  {
    if groups == [] then r
    else
      var next := GroupAdded(r, stack, groups[0]);
      if next.raised.Some? then next else AddGroups(next, stack, groups[1..])
  }

  // --- HA groups updated ------------------------------------------------

  /** The sids of a group's resources, in listing order (`get_ha_resources(group)`). */
  function GroupSids(resources: seq<HaResource>, group: string): (r: seq<string>)
    ensures forall s :: s in r <==> exists x :: x in resources && x.group == group && x.sid == s
    decreases |resources|
  {
    if resources == [] then []
    else
      var rest := GroupSids(resources[1..], group);
      assert forall x :: x in resources <==> x == resources[0] || x in resources[1..];
      (if resources[0].group == group then [resources[0].sid] else []) + rest
  }

  /**
   * One `update_ha_resource` per sid. The new limits are passed only
   * when the key is `in resources` (the list of resources, never holding
   * a key name), so both limits are always None.
   */
  function UpdateResources(w: World, sids: seq<string>): World
    decreases |sids|
  {
    if sids == [] then w
    else UpdateResources(AfterCall(w, UpdateResource(sids[0], Null, Null)), sids[1..])
  }

  /** An updated group: its new nodes and flags, then its resources when a limit changed. */
  function GroupUpdated(w: World, name: string, content: Dict<StackDiff.Delta>): World {
    var w1 := AfterCall(w, UpdateGroup(name, NewValue(content, "nodes"), NewValue(content, "nofailback"),
                                       NewValue(content, "restricted")));
    if "max_restart" in Keys(content) || "max_relocate" in Keys(content) then
      UpdateResources(w1, GroupSids(w1.resources, name))
    else w1
  }

  function UpdateGroups(w: World, stack: string, updated: Dict<Dict<StackDiff.Delta>>): World
    decreases |updated|
  {
    if updated == [] then w
    else UpdateGroups(GroupUpdated(w, Qualified(stack, updated[0].0), updated[0].1), stack, updated[1..])
  }

  /** A call the group update phase may make. */
  predicate UpdatesGroup(c: Call) {
    c.UpdateGroup? || (c.UpdateResource? && c.maxRelocate == Null && c.maxRestart == Null)
  }

  // --- Deleting VMs -----------------------------------------------------

  function DeleteAll(w: World, ids: seq<int>): World
    decreases |ids|
  {
    if ids == [] then w else DeleteAll(AfterDeleteVm(w, ids[0]), ids[1..])
  }

  /** `delete_vms(fitler_name="^<prefix>", vmid=vmid)` on the cluster. */
  function DeleteVmsEffect(w: World, prefix: string, vmid: int): Outcome<World> {
    var ids :- Proxmox.DeletedVms(ListedMatching(w.vms, prefix), vmid);
    Ok(DeleteAll(w, ids))
  }

  // --- Instances removed ------------------------------------------------

  /** Stopping a VM and waiting until it reports stopped. */
  function Stopped(w: World, vmid: int): World {
    AfterCall(AfterSetStatus(w, vmid, "stop"), WaitStatus(vmid, "stopped"))
  }

  /**
   * A removed instance: skipped when no listed VM has its name; otherwise
   * stopped, its HA resources deleted (errors ignored) and deleted.
   */
  function InstanceRemoved(r: Run, stack: string, instance: string): Run {
    match Lookup(r.world, Qualified(stack, instance))
    case None => r
    case Some(vm) =>
      var w := Stopped(r.world, vm.vmid);
      var w' := if vm.vmid > 0 then AfterDeleteResources(w, vm.vmid) else w;
      match DeleteVmsEffect(w', "", vm.vmid)
      case Err(e) => r.(world := w', raised := Some(e))
      case Ok(w'') => r.(world := w'')
  }

  function RemoveInstances(r: Run, stack: string, instances: seq<string>): Run
    decreases |instances|
  {
    if instances == [] then r
    else
      var next := InstanceRemoved(r, stack, instances[0]);
      if next.raised.Some? then next else RemoveInstances(next, stack, instances[1..])
  }

  // --- Instances added --------------------------------------------------

  /** `os.path.expanduser`: a leading `~` names the home directory. */
  function ExpandUser(path: string, home: string): string {
    if path == "~" || StartsWith(path, "~/") then home + path[1..] else path
  }

  /** Reading a key file: its text, or FileNotFound. */
  function ReadFile(keyFiles: map<string, string>, path: string): (r: Outcome<string>)
    ensures r.Ok? <==> path in keyFiles
  {
    if path in keyFiles then Ok(keyFiles[path]) else Err(FileNotFound(path))
  }

  /** `clone_vm`'s arguments read from the instance, in order; the clone source is returned. */
  function CloneSource(cfg: Spec): (r: Outcome<Value>)
    ensures r.Ok? <==> forall k :: k in ["clone", "full_clone", "disk_storage", "target", "nodes"] ==> k in cfg
    ensures r.Ok? ==> r.value == cfg["clone"]
  {
    var source :- Field(cfg, "clone");
    var full :- Field(cfg, "full_clone");
    var storage :- Field(cfg, "disk_storage");
    var target :- Field(cfg, "target");
    var nodes :- Field(cfg, "nodes");
    Ok(source)
  }

  /** `set_vms` raises on a number that is not a number or a text that is not a text. */
  predicate Rejected(s: Proxmox.VmSettings) {
    || (exists k :: 0 <= k < 9 && Proxmox.Keep(Proxmox.PayloadArguments(s)[k]).Err?)
    || Proxmox.SshKeyArg(s.sshkey).Err?
  }

  /** `set_vms` on the cluster: the settings call, or the exception it raises. */
  function SetVmsEffect(w: World, vmid: int, vmname: string, s: Proxmox.VmSettings): Outcome<World> {
    if Rejected(s) then Err(TypeError("set_vms argument")) else Ok(AfterCall(w, SetVms(vmid, vmname, s)))
  }

  /**
   * The settings a new instance gets: sockets and cpulimit -1 (left
   * alone), cores, memory, ipconfig, password and user read in that
   * order, and the key file's text.
   */
  function ProvisionSettings(cfg: Spec, key: string): Outcome<Proxmox.VmSettings> {
    var cores :- Field(cfg, "cores");
    var memory :- Field(cfg, "memory");
    var ipconfig :- Field(cfg, "ipconfig");
    var password :- Field(cfg, "password");
    var user :- Field(cfg, "user");
    Ok(Proxmox.VmSettings(cores, Int(-1), Int(-1), memory, password, Null, user, ipconfig, Null, Str(key)))
  }

  /** The characters of a text, each a one-character string. */
  function Chars(s: string): (r: seq<string>)
    ensures |r| == |s| && forall i :: 0 <= i < |s| ==> r[i] == [s[i]]
  {
    seq(|s|, i requires 0 <= i < |s| => [s[i]])
  }

  /** `";".join(value)`: a list of texts is joined, a text is joined character by character. */
  function JoinValue(v: Value): (r: Outcome<string>)
    ensures r.Ok? <==> v.Strs? || v.Str?
    ensures v.Strs? ==> r == Ok(Join(v.items, ";"))
  {
    match v
    case Strs(items) => Ok(Join(items, ";"))
    case Str(s) => Ok(Join(Chars(s), ";"))
    case _ => Err(TypeError("can only join an iterable of str"))
  }

  /** `cfg_instances['ha_group']` used as a key of the groups dict. */
  function GroupKey(v: Value): Outcome<string> {
    match v
    case Str(s) => Ok(s)
    case Strs(_) => Err(TypeError("unhashable type: 'list'"))
    case Dict(_) => Err(TypeError("unhashable type: 'dict'"))
    case _ => Err(KeyError("ha_group"))
  }

  /** `create_ha_resource`'s group and the limits read from that group's body. */
  function ResourceArguments(cfg: Spec, groups: Dict<Spec>): Outcome<(string, Value, Value)> {
    var group :- Field(cfg, "ha_group");
    var key :- GroupKey(group);
    var body :- (match Get(groups, key) case None => Err(KeyError(key)) case Some(b) => Ok(b));
    var relocate :- Field(body, "max_relocate");
    var restart :- Field(body, "max_restart");
    Ok((key, relocate, restart))
  }

  /**
   * The configuration of a new instance, read from `cfg`: the key file,
   * `set_vms`, `resize_vms_disk`, `set_tags` with the joined tags and
   * `create_ha_resource`. The world reached and the exception raised, if any.
   */
  function Provision(w: World, name: string, vmid: int, cfg: Spec, groups: Dict<Spec>, stack: string,
                     keyFiles: map<string, string>, home: string): (World, Option<Error>)
  {
    var keyPath := Field(cfg, "sshkey");
    if keyPath.Err? then (w, Some(keyPath.error))
    else if !keyPath.value.Str? then (w, Some(TypeError("expected str")))
    else
      match ReadFile(keyFiles, ExpandUser(keyPath.value.s, home))
      case Err(e) => (w, Some(e))
      case Ok(key) =>
        match ProvisionSettings(cfg, key)
        case Err(e) => (w, Some(e))
        case Ok(settings) =>
          match SetVmsEffect(w, vmid, "", settings)
          case Err(e) => (w, Some(e))
          case Ok(w1) => Configure(w1, name, vmid, cfg, groups, stack)
  }

  /** The steps after `set_vms` in the configuration of a new instance. */
  function Configure(w: World, name: string, vmid: int, cfg: Spec, groups: Dict<Spec>, stack: string): (World, Option<Error>) {
    if "disk_size" !in cfg then (w, Some(KeyError("disk_size")))
    else if "disk_device" !in cfg then (w, Some(KeyError("disk_device")))
    else
      var w2 := AfterCall(w, Resize(vmid, cfg["disk_size"], cfg["disk_device"]));
      if "tags" !in cfg then (w2, Some(KeyError("tags")))
      else
        match JoinValue(cfg["tags"])
        case Err(e) => (w2, Some(e))
        case Ok(tags) =>
          var w3 := AfterSetTags(w2, name, tags);
          match ResourceArguments(cfg, groups)
          case Err(e) => (w3, Some(e))
          case Ok(a) => (AfterCreateResource(w3, Qualified(stack, a.0), vmid, a.1, a.2), None)
  }

  /** `cfg_instances["vmid"] = vmid`: the bound instance's body in the expanded configuration gets the vmid. */
  function WithVmid(expanded: StackConfig.Config, stack: string, instance: string, vmid: int): StackConfig.Config {
    var project := Desired(expanded, stack);
    var body := Get(project.instances, instance).GetOr(map[]);
    Put(expanded, stack, StackConfig.Project(project.haGroups, Put(project.instances, instance, body["vmid" := Int(vmid)])))
  }

  /** The body of the instance `cfg_instances` is bound to. */
  function BoundBody(expanded: StackConfig.Config, stack: string, instance: string): Spec {
    Get(Desired(expanded, stack).instances, instance).GetOr(map[])
  }

  /**
   * After the clone (or when the VM existed): the VM is looked up by
   * name, and the instance body `cfg_instances` is bound to (not
   * necessarily this instance's) gets its vmid and configures it.
   */
  function Configured(r: Run, stack: string, instance: string, keyFiles: map<string, string>, home: string): Run {
    var name := Qualified(stack, instance);
    match Lookup(r.world, name)
    case None => Fail(r, TypeError("'bool' object is not subscriptable"))
    case Some(vm) =>
      match r.bound
      case None => Fail(r, UnboundLocal("cfg_instances"))
      case Some(b) =>
        var expanded := WithVmid(r.expanded, stack, b, vm.vmid);
        var e := Provision(r.world, name, vm.vmid, BoundBody(expanded, stack, b), Desired(expanded, stack).haGroups,
                           stack, keyFiles, home);
        Run(e.0, expanded, r.bound, e.1)
  }

  /** The clone of an added instance: its body read, `cfg_instances` bound to it, and its VM cloned. */
  function Cloned(r: Run, stack: string, instance: string): Run {
    match Get(Desired(r.expanded, stack).instances, instance)
    case None => Fail(r, KeyError(instance))
    case Some(cfg) =>
      var bound := r.(bound := Some(instance));
      match CloneSource(cfg)
      case Err(e) => Fail(bound, e)
      case Ok(source) =>
        match AfterClone(r.world, source, Qualified(stack, instance))
        case Err(e) => Fail(bound, e)
        case Ok(w) => bound.(world := w)
  }

  /** An added instance: cloned when no VM of its name is listed, then configured. */
  function InstanceAdded(r: Run, stack: string, instance: string, keyFiles: map<string, string>, home: string): Run {
    if Lookup(r.world, Qualified(stack, instance)).Some? then Configured(r, stack, instance, keyFiles, home)
    else
      var cloned := Cloned(r, stack, instance);
      if cloned.raised.Some? then cloned else Configured(cloned, stack, instance, keyFiles, home)
  }

  function AddInstances(r: Run, stack: string, instances: seq<string>, keyFiles: map<string, string>, home: string): Run
    decreases |instances|
  {
    if instances == [] then r
    else
      var next := InstanceAdded(r, stack, instances[0], keyFiles, home);
      if next.raised.Some? then next else AddInstances(next, stack, instances[1..], keyFiles, home)
  }

  // --- Instances updated ------------------------------------------------

  /** `list.remove(x)` when x is in the list: its first occurrence is dropped. */
  function RemoveFirst(xs: seq<Value>, x: Value): (r: seq<Value>)
    ensures x !in xs ==> r == xs
    ensures x in xs ==> multiset(r) == multiset(xs) - multiset{x}
    ensures forall k :: 0 <= k < |xs| && xs[k] == x && x !in xs[..k] ==> r == xs[..k] + xs[k + 1..]
    decreases |xs|
  {
    if xs == [] then []
    else
      assert xs == [xs[0]] + xs[1..];
      if xs[0] == x then xs[1..]
      else
        var rest := RemoveFirst(xs[1..], x);
        RemoveLater(xs, x, rest);
        [xs[0]] + rest
  }

  /** When the head is kept, dropping the first x from the tail drops the first x from the whole. */
  lemma RemoveLater(xs: seq<Value>, x: Value, rest: seq<Value>)
    requires xs != [] && xs[0] != x
    requires forall k :: 0 <= k < |xs[1..]| && xs[1..][k] == x && x !in xs[1..][..k] ==> rest == xs[1..][..k] + xs[1..][k + 1..]
    ensures forall k :: 0 <= k < |xs| && xs[k] == x && x !in xs[..k] ==> [xs[0]] + rest == xs[..k] + xs[k + 1..]
  {
    forall k | 0 <= k < |xs| && xs[k] == x && x !in xs[..k]
      ensures [xs[0]] + rest == xs[..k] + xs[k + 1..]
    {
      assert k > 0;
      assert xs[..k] == [xs[0]] + xs[1..][..k - 1];
      assert x !in xs[1..][..k - 1];
      assert xs[1..][k..] == xs[k + 1..];
    }
  }

  /** Removing each value of ys in turn, when present. */
  function RemoveEach(xs: seq<Value>, ys: seq<Value>): seq<Value>
    decreases |ys|
  {
    if ys == [] then xs else RemoveEach(RemoveFirst(xs, ys[0]), ys[1..])
  }

  /** The tags after an update: the removed ones dropped, then the added ones appended when new. */
  function TagsAfter(current: seq<Value>, delta: StackDiff.TagDelta): seq<Value> {
    StackDiff.AppendNew(RemoveEach(current, delta.removed), delta.added)
  }

  /** `vm["tags"].replace(",", ";").split(";")`, each piece stripped. */
  function CurrentTags(tags: string): (r: seq<Value>)
    ensures forall t :: t in r ==> t.Str?
  {
    var pieces := Split(ReplaceChar(tags, ',', ';'), ';');
    seq(|pieces|, i requires 0 <= i < |pieces| => Str(Strip(pieces[i])))
  }

  /** `";".join(tags)`: every tag must be a text. */
  function JoinTags(tags: seq<Value>): (r: Outcome<string>)
    ensures r.Ok? <==> forall i :: 0 <= i < |tags| ==> tags[i].Str?
  {
    if forall i :: 0 <= i < |tags| ==> tags[i].Str? then
      Ok(Join(seq(|tags|, i requires 0 <= i < |tags| => tags[i].s), ";"))
    else Err(TypeError("sequence item: expected str instance"))
  }

  /** The new key text when the update changes `sshkey`: the file it names, opened without `~` expansion. */
  function UpdatedKey(props: Dict<StackDiff.Delta>, keyFiles: map<string, string>): (r: Outcome<Value>)
    ensures "sshkey" !in Keys(props) ==> r == Ok(Null)
  {
    match Get(props, "sshkey")
    case None => Ok(Null)
    case Some(d) =>
      if !d.newValue.Str? then Err(TypeError("expected str"))
      else
        match ReadFile(keyFiles, d.newValue.s)
        case Err(e) => Err(e)
        case Ok(text) => Ok(Str(text))
  }

  /** `set_vms` is called when some updated property is other than the disk size and the tags. */
  predicate NeedsSettings(props: Dict<StackDiff.Delta>) {
    exists i :: 0 <= i < |props| && props[i].0 != "disk_size" && props[i].0 != "tags"
  }

  /**
   * The settings an update passes: the new values of the changed
   * properties, None for the rest. The password and user are read under
   * the instance's own keys `password` and `user`, as the add phase reads
   * them; the code as written reads other keys (`WrittenUpdateSettings`).
   */
  function UpdateSettings(props: Dict<StackDiff.Delta>, key: Value): Proxmox.VmSettings {
    Proxmox.VmSettings(NewValue(props, "cores"), Null, Null, NewValue(props, "memory"), NewValue(props, "password"),
                       Null, NewValue(props, "user"), NewValue(props, "ipconfig"), Null, key)
  }

  /** The disk an update resizes: `expanded[stack]["instances"][instance]["disk_device"]`. */
  function DiskDevice(expanded: StackConfig.Config, stack: string, instance: string): Outcome<Value> {
    match Get(expanded, stack)
    case None => Err(KeyError(stack))
    case Some(project) =>
      match Get(project.instances, instance)
      case None => Err(KeyError(instance))
      case Some(body) => Field(body, "disk_device")
  }

  /**
   * The update of an existing VM: stopped and waited for, its tags
   * rewritten, its settings changed when needed, its disk resized when
   * the size changed, and started again.
   */
  function Reconfigured(w: World, name: string, vmid: int, tags: string, disk: Value, u: StackDiff.InstanceUpdate,
                        keyFiles: map<string, string>): (World, Option<Error>)
  {
    Retagged(w, name, vmid, JoinTags(TagsAfter(CurrentTags(tags), u.tags)), disk, u.props, keyFiles)
  }

  /** The update given the joined tag text, or the exception joining raised. */
  function Retagged(w: World, name: string, vmid: int, joined: Outcome<string>, disk: Value,
                    props: Dict<StackDiff.Delta>, keyFiles: map<string, string>): (World, Option<Error>)
  {
    var w1 := Stopped(w, vmid);
    match joined
    case Err(e) => (w1, Some(e))
    case Ok(text) => Resettled(AfterSetTags(w1, name, text), name, vmid, disk, props, UpdatedKey(props, keyFiles))
  }

  /** After the tags: the key file read and `set_vms` called when needed, then the restart. */
  function Resettled(w: World, name: string, vmid: int, disk: Value, props: Dict<StackDiff.Delta>,
                     key: Outcome<Value>): (World, Option<Error>)
  {
    match key
    case Err(e) => (w, Some(e))
    case Ok(key) =>
      match Settled(w, name, vmid, props, key)
      case Err(e) => (w, Some(e))
      case Ok(w1) => (Restarted(w1, vmid, disk, props), None)
  }

  /** `set_vms` with the new settings, when some setting changed. */
  function Settled(w: World, name: string, vmid: int, props: Dict<StackDiff.Delta>, key: Value): Outcome<World> {
    if NeedsSettings(props) then SetVmsEffect(w, vmid, name, UpdateSettings(props, key)) else Ok(w)
  }

  /** The disk resized, after another stop, when its size changed; then the VM started. */
  function Restarted(w: World, vmid: int, disk: Value, props: Dict<StackDiff.Delta>): World {
    var w1 := if "disk_size" in Keys(props) then
      AfterCall(AfterSetStatus(w, vmid, "stop"), Resize(vmid, NewValue(props, "disk_size"), disk))
    else w;
    AfterSetStatus(w1, vmid, "start")
  }

  /** An updated instance: its VM is looked up by name and reconfigured. */
  function InstanceUpdated(r: Run, stack: string, instance: string, u: StackDiff.InstanceUpdate,
                           keyFiles: map<string, string>): Run
  {
    var name := Qualified(stack, instance);
    var vm := Lookup(r.world, name);
    match DiskDevice(r.expanded, stack, instance)
    case Err(e) => Fail(r, e)
    case Ok(disk) =>
      if vm.None? then Fail(r, TypeError("'bool' object is not subscriptable"))
      else
        var e := Reconfigured(r.world, name, vm.value.vmid, vm.value.tags, disk, u, keyFiles);
        r.(world := e.0, raised := e.1)
  }

  function UpdateInstances(r: Run, stack: string, updated: Dict<StackDiff.InstanceUpdate>,
                           keyFiles: map<string, string>): Run
    decreases |updated|
  {
    if updated == [] then r
    else
      var next := InstanceUpdated(r, stack, updated[0].0, updated[0].1, keyFiles);
      if next.raised.Some? then next else UpdateInstances(next, stack, updated[1..], keyFiles)
  }

  // --- The whole run ----------------------------------------------------

  /** What a command leaves behind: the cluster, the configuration, the files and the exception, if any. */
  datatype Applied = Applied(world: World, expanded: StackConfig.Config, files: Files, raised: Option<Error>)

  /** The phases after the group removal, each run only when the previous one raised nothing. */
  function ApplyPhases(r: Run, stack: string, plan: StackDiff.Plan, keyFiles: map<string, string>, home: string): Run {
    var r2 := AddGroups(r, stack, plan.haGroups.added);
    if r2.raised.Some? then r2
    else
      var r3 := r2.(world := UpdateGroups(r2.world, stack, plan.haGroups.updated));
      var r4 := RemoveInstances(r3, stack, plan.instances.removed);
      if r4.raised.Some? then r4
      else
        var r5 := AddInstances(r4, stack, plan.instances.added, keyFiles, home);
        if r5.raised.Some? then r5
        else UpdateInstances(r5, stack, plan.instances.updated, keyFiles)
  }

  /**
   * `stack_apply(stack)`: without a plan file the command exits with
   * status 2; a stack missing from the configuration raises KeyError;
   * otherwise the phases run in order, and when all succeed the state
   * file gets the expanded configuration and the plan file is removed.
   */
  function ApplySpec(w: World, expanded: StackConfig.Config, files: Files, stack: string,
                     keyFiles: map<string, string>, home: string): Applied
    requires FilesValid(files)
  {
    match Load(files, stack, "plan")
    case None => Applied(w, expanded, files, Some(SystemExit(2)))
    case Some(doc) =>
      if stack !in Keys(expanded) then Applied(w, expanded, files, Some(KeyError(stack)))
      else
        var plan := doc.plan;
        var start := Run(RemoveGroups(w, stack, plan.haGroups.removed), expanded, None, None);
        var r := ApplyPhases(start, stack, plan, keyFiles, home);
        if r.raised.Some? then Applied(r.world, r.expanded, files, r.raised)
        else
          var stored := StoreState(files, stack, r.expanded);
          if stored.Err? then Applied(r.world, r.expanded, files, Some(stored.error))
          else Applied(r.world, r.expanded, stored.value - {(stack, PlanFile)}, None)
  }

  // ---------------------------------------------------------------------
  // stack_delete
  // ---------------------------------------------------------------------

  /**
   * `get_ha_resources` naming one resource: the VM is looked up by the
   * text after the sid's last ':'; an empty text finds no VM, a text that
   * is not a number raises ValueError, and no VM raises TypeError.
   */
  function ResourceEntry(vms: seq<Proxmox.Vm>, x: HaResource): (r: Outcome<Proxmox.HaResourceEntry>)
    ensures r.Ok? ==> r.value.sid == x.sid
  {
    var text := Proxmox.SidVmid(x.sid);
    if text == [] then Err(TypeError("'bool' object is not subscriptable"))
    else
      match ParseInt(text)
      case None => Err(ValueError("invalid literal for int()"))
      case Some(id) =>
        match VmWithId(Listed(vms), id)
        case None => Err(TypeError("'bool' object is not subscriptable"))
        case Some(v) => Ok(Proxmox.HaResourceEntry(x.sid, v.name))
  }

  /** `get_ha_resources()`: every resource named, or the first exception. */
  function ResourceEntries(vms: seq<Proxmox.Vm>, resources: seq<HaResource>): (r: Outcome<seq<Proxmox.HaResourceEntry>>)
    ensures r.Ok? ==> |r.value| == |resources|
    decreases |resources|
  {
    if resources == [] then Ok([])
    else
      var first :- ResourceEntry(vms, resources[0]);
      var rest :- ResourceEntries(vms, resources[1..]);
      Ok([first] + rest)
  }

  function DeleteResourceTexts(w: World, texts: seq<string>): World
    decreases |texts|
  {
    if texts == [] then w else DeleteResourceTexts(AfterDeleteResource(w, texts[0]), texts[1..])
  }

  /** Each of the stack's groups that exists is deleted. */
  function DeleteGroups(w: World, stack: string, groups: seq<string>): World
    decreases |groups|
  {
    if groups == [] then w
    else
      var name := Qualified(stack, groups[0]);
      DeleteGroups(if name in w.groups then AfterDeleteGroup(w, name) else w, stack, groups[1..])
  }

  /**
   * One of the stack's instances: skipped when no VM has its name;
   * stopped first when running; then every stopped listed VM whose name
   * starts with the instance's name is deleted.
   */
  function InstanceDeleted(r: Run, stack: string, instance: string): Run {
    var name := Qualified(stack, instance);
    match Lookup(r.world, name)
    case None => r
    case Some(vm) =>
      var w := if vm.status == "running" then Stopped(r.world, vm.vmid) else r.world;
      match DeleteVmsEffect(w, name, -1)
      case Err(e) => r.(world := w, raised := Some(e))
      case Ok(w') => r.(world := w')
  }

  function DeleteInstances(r: Run, stack: string, instances: seq<string>): Run
    decreases |instances|
  {
    if instances == [] then r
    else
      var next := InstanceDeleted(r, stack, instances[0]);
      if next.raised.Some? then next else DeleteInstances(next, stack, instances[1..])
  }

  /** The filter `^<stack>-` applied to a resource's VM name. */
  function StackFilter(stack: string): string -> bool {
    n => StartsWith(n, stack + "-")
  }

  /**
   * `stack_delete(stack)`, with `resourceVmid` the vmid given to
   * `delete_ha_resources` alongside the filter `^<stack>-` (the source
   * gives none): the stack's HA resources, then its groups that exist,
   * then its instances' VMs, then the state file.
   */
  function DeleteSpec(w: World, expanded: StackConfig.Config, files: Files, stack: string,
                      resourceVmid: Option<int>): Applied
  {
    if stack !in Keys(expanded) then Applied(w, expanded, files, Some(KeyError(stack)))
    else
      var project := Desired(expanded, stack);
      match ResourceEntries(w.vms, w.resources)
      case Err(e) => Applied(w, expanded, files, Some(e))
      case Ok(entries) =>
        var d := Proxmox.DeleteHaResources(entries, "^" + stack + "-", StackFilter(stack), resourceVmid);
        var w1 := DeleteResourceTexts(w, d.deleted);
        if d.raised.Some? then Applied(w1, expanded, files, d.raised)
        else
          var w2 := DeleteGroups(w1, stack, Keys(project.haGroups));
          var r := DeleteInstances(Run(w2, expanded, None, None), stack, Keys(project.instances));
          if r.raised.Some? then Applied(r.world, expanded, files, r.raised)
          else Applied(r.world, expanded, files - {(stack, StateFile)}, None)
  }

  // ---------------------------------------------------------------------
  // Properties of the group phases
  // ---------------------------------------------------------------------

  /** The cluster names of the groups a phase removes. */
  function RemovedNames(stack: string, groups: seq<string>): set<string> {
    set g | g in groups :: Qualified(stack, g)
  }

  /**
   * Removing groups deletes each group's resources and then the group,
   * in plan order; afterwards no removed group and none of its resources
   * is left, every other group and resource is as it was, and the VMs are
   * untouched.
   */
  lemma {:induction false} RemoveGroupsEffect(w: World, stack: string, groups: seq<string>)
    ensures var out := RemoveGroups(w, stack, groups);
      && out.log == w.log + RemovalCalls(stack, groups)
      && out.vms == w.vms && out.nextId == w.nextId
      && (forall n :: n in out.groups <==> n in w.groups && n !in RemovedNames(stack, groups))
      && (forall n :: n in out.groups ==> out.groups[n] == w.groups[n])
      && (forall x :: x in out.resources <==> x in w.resources && x.group !in RemovedNames(stack, groups))
    decreases |groups|
  {
    if groups != [] {
      var name := Qualified(stack, groups[0]);
      RemoveGroupsEffect(GroupRemoved(w, name), stack, groups[1..]);
      assert RemovedNames(stack, groups) == {name} + RemovedNames(stack, groups[1..]) by {
        assert forall g :: g in groups <==> g == groups[0] || g in groups[1..];
      }
    }
  }

  /**
   * Adding groups creates only groups that did not exist, leaves every
   * existing group as it was, and raises only KeyError; when it raises
   * nothing, every added group is in the desired project and exists.
   */
  lemma {:induction false} AddGroupsEffect(r: Run, stack: string, groups: seq<string>)
    requires r.raised == None
    ensures var out := AddGroups(r, stack, groups);
      && out.expanded == r.expanded && out.bound == r.bound
      && out.world.vms == r.world.vms && out.world.resources == r.world.resources
      && (forall n :: n in r.world.groups ==> n in out.world.groups && out.world.groups[n] == r.world.groups[n])
      && CreatesOnly(r.world, out.world.log)
      && (out.raised.Some? ==> out.raised.value.KeyError?)
      && (out.raised == None ==> forall g :: g in groups ==>
            g in Keys(Desired(r.expanded, stack).haGroups) && Qualified(stack, g) in out.world.groups)
    decreases |groups|
  {
    if groups != [] {
      var next := GroupAdded(r, stack, groups[0]);
      GroupAddedEffect(r, stack, groups[0]);
      if next.raised == None {
        AddGroupsEffect(next, stack, groups[1..]);
        CreatesOnlyTrans(r.world, next.world, AddGroups(next, stack, groups[1..]).world.log);
        assert forall g :: g in groups ==> g == groups[0] || g in groups[1..];
      }
    }
  }

  /** The log extends the world's log with creations of groups the world did not have. */
  predicate CreatesOnly(before: World, log: seq<Call>) {
    && |log| >= |before.log| && log[..|before.log|] == before.log
    && forall i :: |before.log| <= i < |log| ==> log[i].CreateGroup? && log[i].request.group !in before.groups
  }

  lemma CreatesOnlyTrans(a: World, b: World, log: seq<Call>)
    requires CreatesOnly(a, b.log) && CreatesOnly(b, log)
    requires forall n :: n in a.groups ==> n in b.groups
    ensures CreatesOnly(a, log)
  {
    assert log[..|a.log|] == log[..|b.log|][..|a.log|];
  }

  /** One added group: created when it did not exist, nothing else changed. */
  lemma GroupAddedEffect(r: Run, stack: string, group: string)
    ensures var out := GroupAdded(r, stack, group);
      && out.expanded == r.expanded && out.bound == r.bound
      && out.world.vms == r.world.vms && out.world.resources == r.world.resources
      && (forall n :: n in r.world.groups ==> n in out.world.groups && out.world.groups[n] == r.world.groups[n])
      && CreatesOnly(r.world, out.world.log)
      && (out.raised != r.raised ==> out.raised.Some? && out.raised.value.KeyError?)
      && (out.raised == None ==> group in Keys(Desired(r.expanded, stack).haGroups) && Qualified(stack, group) in out.world.groups)
  {
  }

  /** One `update_ha_resource` per sid, with no limits. */
  lemma {:induction false} UpdateResourcesEffect(w: World, sids: seq<string>)
    ensures var out := UpdateResources(w, sids);
      && out.(log := w.log) == w
      && out.log == w.log + seq(|sids|, i requires 0 <= i < |sids| => UpdateResource(sids[i], Null, Null))
    decreases |sids|
  {
    if sids != [] {
      UpdateResourcesEffect(AfterCall(w, UpdateResource(sids[0], Null, Null)), sids[1..]);
    }
  }

  /** `after` is `before` followed by calls the group update phase may make. */
  predicate AppendsUpdates(before: seq<Call>, after: seq<Call>) {
    && |after| >= |before| && after[..|before|] == before
    && forall i :: |before| <= i < |after| ==> UpdatesGroup(after[i])
  }

  lemma AppendsUpdatesTrans(a: seq<Call>, b: seq<Call>, c: seq<Call>)
    requires AppendsUpdates(a, b) && AppendsUpdates(b, c)
    ensures AppendsUpdates(a, c)
  {
    assert c[..|a|] == b[..|b|][..|a|];
  }

  /** One updated group: the world is unchanged but for the calls appended. */
  lemma GroupUpdatedEffect(w: World, name: string, content: Dict<StackDiff.Delta>)
    ensures var out := GroupUpdated(w, name, content);
      out.(log := w.log) == w && AppendsUpdates(w.log, out.log)
  {
    var w1 := AfterCall(w, UpdateGroup(name, NewValue(content, "nodes"), NewValue(content, "nofailback"),
                                       NewValue(content, "restricted")));
    UpdateResourcesEffect(w1, GroupSids(w1.resources, name));
    assert AppendsUpdates(w.log, w1.log);
    assert AppendsUpdates(w1.log, UpdateResources(w1, GroupSids(w1.resources, name)).log);
    AppendsUpdatesTrans(w.log, w1.log, UpdateResources(w1, GroupSids(w1.resources, name)).log);
  }

  /**
   * Updating groups changes no group, resource or VM in the model: it
   * only makes `update_ha_group` calls and `update_ha_resource` calls
   * that carry no restart or relocate limit, whatever the plan says.
   */
  lemma {:induction false} UpdateGroupsEffect(w: World, stack: string, updated: Dict<Dict<StackDiff.Delta>>)
    ensures var out := UpdateGroups(w, stack, updated);
      out.(log := w.log) == w && AppendsUpdates(w.log, out.log)
    decreases |updated|
  {
    if updated != [] {
      var next := GroupUpdated(w, Qualified(stack, updated[0].0), updated[0].1);
      GroupUpdatedEffect(w, Qualified(stack, updated[0].0), updated[0].1);
      UpdateGroupsEffect(next, stack, updated[1..]);
      AppendsUpdatesTrans(w.log, next.log, UpdateGroups(next, stack, updated[1..]).log);
    }
  }

  // ---------------------------------------------------------------------
  // Properties of the instance phases
  // ---------------------------------------------------------------------

  /** A removed instance with no VM of its name is skipped. */
  lemma AbsentInstanceSkipped(r: Run, stack: string, instance: string)
    requires Lookup(r.world, Qualified(stack, instance)).None?
    ensures InstanceRemoved(r, stack, instance) == r
  {
  }

  /**
   * A removed instance whose VM is listed: the VM is stopped, waited
   * for, its HA resources deleted and the VM deleted, in that order; no
   * VM with its id and no resource naming it is left, and the groups are
   * untouched.
   */
  lemma RemovedInstanceDeleted(r: Run, stack: string, instance: string)
    requires Lookup(r.world, Qualified(stack, instance)).Some?
    requires Lookup(r.world, Qualified(stack, instance)).value.vmid > 0
    ensures var id := Lookup(r.world, Qualified(stack, instance)).value.vmid;
      var out := InstanceRemoved(r, stack, instance);
      && out.raised == r.raised && out.expanded == r.expanded
      && out.world.log == r.world.log + [SetStatus(id, "stop"), WaitStatus(id, "stopped"), DeleteResources(id), DeleteVm(id)]
      && out.world.groups == r.world.groups
      && (forall v :: v in out.world.vms ==> v.vmid != id)
      && (forall x :: x in out.world.resources ==> Proxmox.SidVmid(x.sid) != IntToString(id))
  {
    var name := Qualified(stack, instance);
    Proxmox.VmByIdOrNameMeaning(Listed(r.world.vms), 0, name);
    var vm := Lookup(r.world, name).value;
    var w' := AfterDeleteResources(Stopped(r.world, vm.vmid), vm.vmid);
    StoppedVmDeletable(r.world, vm);
    assert InstanceRemoved(r, stack, instance) == r.(world := AfterDeleteVm(w', vm.vmid));
    VmTornDown(r.world, vm.vmid);
  }

  /** Stopping a VM, deleting its resources and deleting it leaves nothing of it. */
  lemma VmTornDown(w: World, id: int)
    ensures var out := AfterDeleteVm(AfterDeleteResources(Stopped(w, id), id), id);
      && out.log == w.log + [SetStatus(id, "stop"), WaitStatus(id, "stopped"), DeleteResources(id), DeleteVm(id)]
      && out.groups == w.groups
      && (forall v :: v in out.vms ==> v.vmid != id)
      && (forall x :: x in out.resources ==> Proxmox.SidVmid(x.sid) != IntToString(id))
  {
  }

  /** Once a listed VM is stopped, deleting it by id succeeds. */
  lemma StoppedVmDeletable(w: World, vm: Proxmox.Vm)
    requires vm in Listed(w.vms) && vm.vmid > 0
    ensures var w' := AfterDeleteResources(Stopped(w, vm.vmid), vm.vmid);
      DeleteVmsEffect(w', "", vm.vmid) == Ok(AfterDeleteVm(w', vm.vmid))
  {
    var id := vm.vmid;
    StopLeavesStopped(w, id);
    var vms := AfterSetStatus(w, id, "stop").vms;
    assert AfterDeleteResources(Stopped(w, id), id).vms == vms;
    ListedWithoutPrefix(vms);
    DeletedStoppedVm(Listed(vms), vm.(status := "stopped"));
    var w' := AfterDeleteResources(Stopped(w, id), id);
    assert ListedMatching(w'.vms, "") == Listed(vms);
    assert Proxmox.DeletedVms(ListedMatching(w'.vms, ""), id) == Ok([id]);
    assert DeleteAll(w', [id]) == AfterDeleteVm(w', id);
  }

  /** The empty prefix lists every listed VM. */
  lemma {:induction false} ListedWithoutPrefix(vms: seq<Proxmox.Vm>)
    ensures ListedMatching(vms, "") == Listed(vms)
    decreases |vms|
  {
    if vms != [] {
      ListedWithoutPrefix(vms[..|vms| - 1]);
      assert StartsWith(vms[|vms| - 1].name, "");
    }
  }

  /** Deleting by id a VM that is listed, where every VM listed with that id is stopped. */
  lemma DeletedStoppedVm(listed: seq<Proxmox.Vm>, vm: Proxmox.Vm)
    requires vm in listed && vm.vmid > 0
    requires forall v :: v in listed && v.vmid == vm.vmid ==> v.status == "stopped"
    ensures Proxmox.DeletedVms(listed, vm.vmid) == Ok([vm.vmid])
  {
    Proxmox.VmByIdOrNameMeaning(listed, vm.vmid, "");
  }

  /**
   * An added instance whose VM already exists while `cfg_instances` was
   * never bound raises UnboundLocalError before configuring anything.
   */
  lemma ExistingInstanceUnbound(r: Run, stack: string, instance: string, keyFiles: map<string, string>, home: string)
    requires r.bound == None
    requires Lookup(r.world, Qualified(stack, instance)).Some?
    ensures InstanceAdded(r, stack, instance, keyFiles, home) == Fail(r, UnboundLocal("cfg_instances"))
  {
  }

  /**
   * An added instance whose VM already exists, while `cfg_instances` is
   * still bound to an earlier instance b: the VM's id is written into
   * b's body, every other instance's body is left as it was, and b's
   * body is what configures the VM.
   */
  lemma ExistingInstanceWritesBound(r: Run, stack: string, instance: string, b: string,
                                    keyFiles: map<string, string>, home: string)
    requires r.bound == Some(b) && stack in Keys(r.expanded)
    requires Lookup(r.world, Qualified(stack, instance)).Some?
    ensures var id := Lookup(r.world, Qualified(stack, instance)).value.vmid;
      var out := InstanceAdded(r, stack, instance, keyFiles, home);
      && Get(Desired(out.expanded, stack).instances, b) == Some(BoundBody(r.expanded, stack, b)["vmid" := Int(id)])
      && (forall k :: k != b ==> Get(Desired(out.expanded, stack).instances, k) == Get(Desired(r.expanded, stack).instances, k))
      && (out.world, out.raised) == Provision(r.world, Qualified(stack, instance), id,
                                              BoundBody(r.expanded, stack, b)["vmid" := Int(id)],
                                              Desired(r.expanded, stack).haGroups, stack, keyFiles, home)
  {
    var id := Lookup(r.world, Qualified(stack, instance)).value.vmid;
    WithVmidGet(r.expanded, stack, b, id);
  }

  /** Writing a vmid into one instance body of a stack in the configuration. */
  lemma WithVmidGet(expanded: StackConfig.Config, stack: string, b: string, id: int)
    requires stack in Keys(expanded)
    ensures var after := Desired(WithVmid(expanded, stack, b, id), stack);
      && after.haGroups == Desired(expanded, stack).haGroups
      && Get(after.instances, b) == Some(BoundBody(expanded, stack, b)["vmid" := Int(id)])
      && BoundBody(WithVmid(expanded, stack, b, id), stack, b) == BoundBody(expanded, stack, b)["vmid" := Int(id)]
      && forall k :: k != b ==> Get(after.instances, k) == Get(Desired(expanded, stack).instances, k)
  {
    var project := Desired(expanded, stack);
    var body := BoundBody(expanded, stack, b)["vmid" := Int(id)];
    var project' := StackConfig.Project(project.haGroups, Put(project.instances, b, body));
    PutGet(expanded, stack, project', stack);
    forall k {
      PutGet(project.instances, b, body, k);
    }
  }

  /**
   * The calls configuring a VM: `set_vms` with the instance's cores and
   * with sockets and cpulimit left alone, `resize_vms_disk` with its disk
   * size and device, `set_tags` on its name, and `create_ha_resource`
   * for its vmid.
   */
  predicate ConfiguresVm(calls: seq<Call>, name: string, vmid: int, cfg: Spec) {
    && "cores" in cfg
    && |calls| == 4
    && calls[0].SetVms? && calls[0].vmid == vmid && calls[0].vmname == ""
    && calls[0].settings.cores == cfg["cores"]
    && calls[0].settings.sockets == Int(-1) && calls[0].settings.cpulimit == Int(-1)
    && FinishesVm(calls[1..], name, vmid, cfg)
  }

  /** The calls after `set_vms`: the resize, the tags and the HA resource. */
  predicate FinishesVm(calls: seq<Call>, name: string, vmid: int, cfg: Spec) {
    && "disk_size" in cfg && "disk_device" in cfg
    && |calls| == 3
    && calls[0] == Resize(vmid, cfg["disk_size"], cfg["disk_device"])
    && calls[1].SetTags? && calls[1].prefix == name
    && calls[2].CreateResource? && calls[2].vmid == vmid
  }

  /** The configuration of a new instance, when it raises nothing, makes the four configuring calls in order. */
  lemma ProvisionCalls(w: World, name: string, vmid: int, cfg: Spec, groups: Dict<Spec>, stack: string,
                       keyFiles: map<string, string>, home: string)
    ensures var e := Provision(w, name, vmid, cfg, groups, stack, keyFiles, home);
      e.1 == None ==>
        && |e.0.log| >= |w.log| && e.0.log == w.log + e.0.log[|w.log|..]
        && ConfiguresVm(e.0.log[|w.log|..], name, vmid, cfg)
  {
    var e := Provision(w, name, vmid, cfg, groups, stack, keyFiles, home);
    if e.1 == None {
      var key := ReadFile(keyFiles, ExpandUser(cfg["sshkey"].s, home)).value;
      var settings := ProvisionSettings(cfg, key).value;
      var w1 := AfterCall(w, SetVms(vmid, "", settings));
      ConfigureCalls(w1, name, vmid, cfg, groups, stack);
      assert e.0.log[|w.log|..][1..] == e.0.log[|w1.log|..];
    }
  }

  lemma ConfigureCalls(w: World, name: string, vmid: int, cfg: Spec, groups: Dict<Spec>, stack: string)
    ensures var e := Configure(w, name, vmid, cfg, groups, stack);
      e.1 == None ==>
        && |e.0.log| >= |w.log| && e.0.log == w.log + e.0.log[|w.log|..]
        && FinishesVm(e.0.log[|w.log|..], name, vmid, cfg)
  {
  }

  /** The first wanted VM of a list whose only wanted VM is the last one. */
  lemma {:induction false} FoundLast(vms: seq<Proxmox.Vm>, c: Proxmox.Vm, vmid: int, vmname: string)
    requires forall v :: v in vms ==> !Proxmox.Wanted(v, vmid, vmname)
    requires Proxmox.Wanted(c, vmid, vmname)
    ensures Proxmox.VmByIdOrName(vms + [c], vmid, vmname) == Some(c)
    decreases |vms|
  {
    if vms != [] {
      assert (vms + [c])[1..] == vms[1..] + [c];
      FoundLast(vms[1..], c, vmid, vmname);
    }
  }

  /** After a clone, looking its name up finds the clone when no listed VM had that name. */
  lemma CloneFound(w: World, source: Value, name: string)
    requires Lookup(w, name).None?
    requires AfterClone(w, source, name).Ok?
    ensures var w' := AfterClone(w, source, name).value;
      Lookup(w', name).Some? && Lookup(w', name).value.vmid == w.nextId
  {
    var w' := AfterClone(w, source, name).value;
    var c := w'.vms[|w.vms|];
    assert w'.vms == w.vms + [c];
    assert Listed(w'.vms) == Listed(w.vms) + [c] by {
      assert (w.vms + [c])[..|w.vms|] == w.vms;
    }
    Proxmox.VmByIdOrNameMeaning(Listed(w.vms), 0, name);
    FoundLast(Listed(w.vms), c, 0, name);
  }

  /**
   * Cloning a new instance with no VM of its name, when it raises
   * nothing, binds `cfg_instances` to it and makes one clone call; the
   * clone is then found under the instance's name with the next vmid.
   */
  lemma ClonedEffect(r: Run, stack: string, instance: string)
    requires r.raised == None
    requires Lookup(r.world, Qualified(stack, instance)).None?
    ensures var c := Cloned(r, stack, instance);
      var n := |r.world.log|;
      c.raised == None ==>
        && c.bound == Some(instance) && c.expanded == r.expanded
        && instance in Keys(Desired(r.expanded, stack).instances)
        && |c.world.log| == n + 1 && c.world.log[..n] == r.world.log
        && c.world.log[n].Clone? && c.world.log[n].name == Qualified(stack, instance) && c.world.log[n].newid == r.world.nextId
        && Lookup(c.world, Qualified(stack, instance)).Some?
        && Lookup(c.world, Qualified(stack, instance)).value.vmid == r.world.nextId
  {
    var name := Qualified(stack, instance);
    var cfg := Get(Desired(r.expanded, stack).instances, instance);
    if cfg.Some? && CloneSource(cfg.value).Ok? && AfterClone(r.world, CloneSource(cfg.value).value, name).Ok? {
      CloneFound(r.world, CloneSource(cfg.value).value, name);
    }
  }

  /**
   * A new instance with no VM of its name, when it raises nothing, is
   * cloned, bound to `cfg_instances`, and given the clone's id in its
   * body; every other instance body is left as it was.
   */
  lemma ClonedInstanceBound(r: Run, stack: string, instance: string, keyFiles: map<string, string>, home: string)
    requires r.raised == None && stack in Keys(r.expanded)
    requires Lookup(r.world, Qualified(stack, instance)).None?
    ensures var out := InstanceAdded(r, stack, instance, keyFiles, home);
      out.raised == None ==>
        && out.bound == Some(instance)
        && instance in Keys(Desired(r.expanded, stack).instances)
        && Get(Desired(out.expanded, stack).instances, instance)
           == Some(Get(Desired(r.expanded, stack).instances, instance).value["vmid" := Int(r.world.nextId)])
        && forall k :: k != instance ==> Get(Desired(out.expanded, stack).instances, k) == Get(Desired(r.expanded, stack).instances, k)
  {
    var c := Cloned(r, stack, instance);
    ClonedEffect(r, stack, instance);
    if c.raised == None {
      WithVmidGet(r.expanded, stack, instance, r.world.nextId);
      ConfiguredBound(c, stack, instance, keyFiles, home);
    }
  }

  /**
   * Configuring an instance whose VM is found, with `cfg_instances`
   * bound to b, when it raises nothing: the four configuring calls, with
   * b's body (which now holds the vmid).
   */
  lemma ConfiguredEffect(r: Run, stack: string, instance: string, keyFiles: map<string, string>, home: string)
    requires r.bound.Some? && Lookup(r.world, Qualified(stack, instance)).Some?
    ensures var out := Configured(r, stack, instance, keyFiles, home);
      var n := |r.world.log|;
      out.raised == None ==>
        && |out.world.log| >= n && out.world.log == r.world.log + out.world.log[n..]
        && ConfiguresVm(out.world.log[n..], Qualified(stack, instance), Lookup(r.world, Qualified(stack, instance)).value.vmid,
                        BoundBody(out.expanded, stack, r.bound.value))
  {
    var id := Lookup(r.world, Qualified(stack, instance)).value.vmid;
    var expanded := WithVmid(r.expanded, stack, r.bound.value, id);
    ConfiguredBound(r, stack, instance, keyFiles, home);
    ProvisionCalls(r.world, Qualified(stack, instance), id, BoundBody(expanded, stack, r.bound.value),
                   Desired(expanded, stack).haGroups, stack, keyFiles, home);
  }

  /**
   * The log after a new instance: the earlier log, the clone under its
   * name with the given vmid, then the four configuring calls.
   */
  predicate ClonesAndConfigures(log: seq<Call>, before: seq<Call>, name: string, vmid: int, cfg: Spec) {
    var n := |before|;
    && |log| == n + 5 && log[..n] == before
    && log[n].Clone? && log[n].name == name && log[n].newid == vmid
    && ConfiguresVm(log[n + 1..], name, vmid, cfg)
  }

  /**
   * A new instance with no VM of its name, when it raises nothing, is
   * cloned under its name with the next vmid, then configured for that
   * vmid with its own body: `set_vms`, `resize_vms_disk`, `set_tags` and
   * `create_ha_resource`, in that order.
   */
  lemma ClonedInstanceConfigured(r: Run, stack: string, instance: string, keyFiles: map<string, string>, home: string)
    requires r.raised == None
    requires Lookup(r.world, Qualified(stack, instance)).None?
    ensures var out := InstanceAdded(r, stack, instance, keyFiles, home);
      out.raised == None ==>
        ClonesAndConfigures(out.world.log, r.world.log, Qualified(stack, instance), r.world.nextId,
                            BoundBody(out.expanded, stack, instance))
  {
    var c := Cloned(r, stack, instance);
    ClonedEffect(r, stack, instance);
    if c.raised == None {
      ConfiguredEffect(c, stack, instance, keyFiles, home);
      var out := Configured(c, stack, instance, keyFiles, home);
      if out.raised == None {
        LogsCompose(r.world.log, c.world.log, out.world.log, Qualified(stack, instance), r.world.nextId,
                    BoundBody(out.expanded, stack, instance));
      }
    }
  }

  lemma LogsCompose(before: seq<Call>, cloned: seq<Call>, log: seq<Call>, name: string, vmid: int, cfg: Spec)
    requires |cloned| == |before| + 1 && cloned[..|before|] == before
    requires cloned[|before|].Clone? && cloned[|before|].name == name && cloned[|before|].newid == vmid
    requires |log| >= |cloned| && log == cloned + log[|cloned|..]
    requires ConfiguresVm(log[|cloned|..], name, vmid, cfg)
    ensures ClonesAndConfigures(log, before, name, vmid, cfg)
  {
    assert log[..|before|] == cloned[..|before|];
  }

  /** Configuring with `cfg_instances` bound: the bound body gets the vmid and configures the VM. */
  lemma ConfiguredBound(r: Run, stack: string, instance: string, keyFiles: map<string, string>, home: string)
    requires r.bound.Some? && Lookup(r.world, Qualified(stack, instance)).Some?
    ensures var id := Lookup(r.world, Qualified(stack, instance)).value.vmid;
      var expanded := WithVmid(r.expanded, stack, r.bound.value, id);
      var e := Provision(r.world, Qualified(stack, instance), id, BoundBody(expanded, stack, r.bound.value),
                         Desired(expanded, stack).haGroups, stack, keyFiles, home);
      Configured(r, stack, instance, keyFiles, home) == Run(e.0, expanded, r.bound, e.1)
  {
  }

  // ---------------------------------------------------------------------
  // The tag delta of an updated instance
  // ---------------------------------------------------------------------

  /** xs keeps some of the elements of ys, in their order. */
  predicate Subseq(xs: seq<Value>, ys: seq<Value>)
    decreases |ys|
  {
    if ys == [] then xs == []
    else (xs != [] && xs[0] == ys[0] && Subseq(xs[1..], ys[1..])) || Subseq(xs, ys[1..])
  }

  lemma {:induction false} SubseqRefl(xs: seq<Value>)
    ensures Subseq(xs, xs)
    decreases |xs|
  {
    if xs != [] {
      SubseqRefl(xs[1..]);
    }
  }

  lemma {:induction false} SubseqTrans(a: seq<Value>, b: seq<Value>, c: seq<Value>)
    requires Subseq(a, b) && Subseq(b, c)
    ensures Subseq(a, c)
    decreases |c|
  {
    if c != [] {
      if Subseq(b, c[1..]) {
        SubseqTrans(a, b, c[1..]);
      } else if a != [] && a[0] == b[0] && Subseq(a[1..], b[1..]) {
        SubseqTrans(a[1..], b[1..], c[1..]);
      } else {
        SubseqTrans(a, b[1..], c[1..]);
      }
    }
  }

  /** `list.remove` keeps the other elements in their order. */
  lemma {:induction false} RemoveFirstSubseq(xs: seq<Value>, x: Value)
    ensures Subseq(RemoveFirst(xs, x), xs)
    decreases |xs|
  {
    if xs != [] {
      if xs[0] == x {
        SubseqRefl(xs[1..]);
      } else {
        RemoveFirstSubseq(xs[1..], x);
        assert ([xs[0]] + RemoveFirst(xs[1..], x))[1..] == RemoveFirst(xs[1..], x);
      }
    }
  }

  /** Removing each tag of ys in turn keeps the other tags in their order. */
  lemma {:induction false} RemoveEachSubseq(xs: seq<Value>, ys: seq<Value>)
    ensures Subseq(RemoveEach(xs, ys), xs)
    decreases |ys|
  {
    if ys == [] {
      SubseqRefl(xs);
    } else {
      var once := RemoveFirst(xs, ys[0]);
      RemoveFirstSubseq(xs, ys[0]);
      RemoveEachSubseq(once, ys[1..]);
      SubseqTrans(RemoveEach(once, ys[1..]), once, xs);
    }
  }

  /**
   * Removing each tag of ys in turn drops each tag as many times as ys
   * names it, as far as there are copies to drop.
   */
  lemma {:induction false} RemoveEachCounts(xs: seq<Value>, ys: seq<Value>)
    ensures multiset(RemoveEach(xs, ys)) == multiset(xs) - multiset(ys)
    decreases |ys|
  {
    if ys != [] {
      var once := RemoveFirst(xs, ys[0]);
      RemoveEachCounts(once, ys[1..]);
      RemoveFirstCount(xs, ys[0]);
      CountsOfCons(ys);
      DifferenceOfSum(multiset(xs), multiset{ys[0]}, multiset(ys[1..]));
    }
  }

  lemma RemoveFirstCount(xs: seq<Value>, x: Value)
    ensures multiset(RemoveFirst(xs, x)) == multiset(xs) - multiset{x}
  {
    if x !in xs {
      assert multiset(xs)[x] == 0;
      assert multiset(xs) - multiset{x} == multiset(xs);
    }
  }

  lemma CountsOfCons(ys: seq<Value>)
    requires ys != []
    ensures multiset(ys) == multiset{ys[0]} + multiset(ys[1..])
  {
    assert ys == [ys[0]] + ys[1..];
  }

  lemma DifferenceOfSum(a: multiset<Value>, b: multiset<Value>, c: multiset<Value>)
    ensures a - b - c == a - (b + c)
  {
    assert forall t :: (a - b - c)[t] == (a - (b + c))[t];
  }

  lemma {:induction false} SubseqElements(xs: seq<Value>, ys: seq<Value>)
    requires Subseq(xs, ys)
    ensures forall v :: v in xs ==> v in ys
    decreases |ys|
  {
    if ys != [] {
      if xs != [] && xs[0] == ys[0] && Subseq(xs[1..], ys[1..]) {
        SubseqElements(xs[1..], ys[1..]);
        assert xs == [xs[0]] + xs[1..];
      } else {
        SubseqElements(xs, ys[1..]);
      }
    }
  }

  /**
   * The values of xs that survive removing the values of m: scanning from
   * the front, a value with copies left in m is dropped (and one copy is
   * used up); every other value is kept.
   */
  function Survivors(xs: seq<Value>, m: multiset<Value>): seq<Value>
    decreases |xs|
  {
    if xs == [] then []
    else if m[xs[0]] > 0 then Survivors(xs[1..], m - multiset{xs[0]})
    else [xs[0]] + Survivors(xs[1..], m)
  }

  /** Nothing to remove keeps every value. */
  lemma {:induction false} SurvivorsOfNone(xs: seq<Value>)
    ensures Survivors(xs, multiset{}) == xs
    decreases |xs|
  {
    if xs != [] {
      SurvivorsOfNone(xs[1..]);
    }
  }

  /** Dropping the first copy of y first is the same as one more copy of y to remove. */
  lemma {:induction false} RemoveFirstSurvivors(xs: seq<Value>, y: Value, m: multiset<Value>)
    ensures Survivors(RemoveFirst(xs, y), m) == Survivors(xs, m + multiset{y})
    decreases |xs|
  {
    if xs != [] && xs[0] == y {
      assert m + multiset{y} - multiset{y} == m;
    } else if xs != [] {
      var a := xs[0];
      assert RemoveFirst(xs, y) == [a] + RemoveFirst(xs[1..], y);
      assert ([a] + RemoveFirst(xs[1..], y))[1..] == RemoveFirst(xs[1..], y);
      assert (m + multiset{y})[a] == m[a];
      if m[a] > 0 {
        RemoveFirstSurvivors(xs[1..], y, m - multiset{a});
        assert m - multiset{a} + multiset{y} == m + multiset{y} - multiset{a};
      } else {
        RemoveFirstSurvivors(xs[1..], y, m);
      }
    }
  }

  /**
   * Removing each value of ys in turn with `list.remove` drops, for every
   * value, its first copies, as many as ys names it: the other copies
   * survive, in their order.
   */
  lemma {:induction false} RemoveEachSurvivors(xs: seq<Value>, ys: seq<Value>)
    ensures RemoveEach(xs, ys) == Survivors(xs, multiset(ys))
    decreases |ys|
  {
    if ys == [] {
      SurvivorsOfNone(xs);
    } else {
      RemoveEachSurvivors(RemoveFirst(xs, ys[0]), ys[1..]);
      RemoveFirstSurvivors(xs, ys[0], multiset(ys[1..]));
      CountsOfCons(ys);
      assert multiset(ys) == multiset(ys[1..]) + multiset{ys[0]};
    }
  }

  /**
   * The tags written after an update: the current ones, in their order,
   * less the first copies of each removed tag, one per removal, followed
   * by the added tags not already there. Every added tag is present; a
   * tag removed at least as often as it occurred and not added back is
   * gone; nothing else appears.
   */
  lemma TagsAfterMeaning(current: seq<Value>, delta: StackDiff.TagDelta)
    ensures var kept := RemoveEach(current, delta.removed);
      var r := TagsAfter(current, delta);
      && Subseq(kept, current)
      && kept == Survivors(current, multiset(delta.removed))
      && multiset(kept) == multiset(current) - multiset(delta.removed)
      && |r| >= |kept| && r[..|kept|] == kept
      && (forall t :: t in delta.added ==> t in r)
      && (forall t :: t in r ==> t in current || t in delta.added)
      && (forall t :: t !in delta.added && multiset(delta.removed)[t] >= multiset(current)[t] ==> t !in r)
  {
    var kept := RemoveEach(current, delta.removed);
    RemoveEachSubseq(current, delta.removed);
    RemoveEachCounts(current, delta.removed);
    RemoveEachSurvivors(current, delta.removed);
    SubseqElements(kept, current);
    StackDiff.AppendNewContents(kept, delta.added);
    forall t | t !in delta.added && multiset(delta.removed)[t] >= multiset(current)[t]
      ensures t !in TagsAfter(current, delta)
    {
      assert multiset(kept)[t] == 0;
    }
  }

  /** A tag is never added twice: with distinct current tags, the written tags are distinct. */
  lemma TagsAfterDistinct(current: seq<Value>, delta: StackDiff.TagDelta)
    requires StackDiff.Distinct(current)
    ensures StackDiff.Distinct(TagsAfter(current, delta))
  {
    var kept := RemoveEach(current, delta.removed);
    RemoveEachSubseq(current, delta.removed);
    SubseqDistinct(kept, current);
    StackDiff.AppendNewDistinct(kept, delta.added);
  }

  lemma {:induction false} SubseqDistinct(xs: seq<Value>, ys: seq<Value>)
    requires Subseq(xs, ys) && StackDiff.Distinct(ys)
    ensures StackDiff.Distinct(xs)
    decreases |ys|
  {
    if ys != [] {
      if xs != [] && xs[0] == ys[0] && Subseq(xs[1..], ys[1..]) {
        SubseqDistinct(xs[1..], ys[1..]);
        SubseqElements(xs[1..], ys[1..]);
        forall j | 0 < j < |xs| ensures xs[0] != xs[j] {
          assert xs[j] == xs[1..][j - 1];
          assert xs[j] in ys[1..];
        }
      } else {
        SubseqDistinct(xs, ys[1..]);
      }
    }
  }

  /**
   * The tags of an updated VM can be joined exactly when every added tag
   * is a text: the current tags are texts, so only an added value that is
   * not makes `";".join` raise TypeError.
   */
  lemma TagsJoinable(tags: string, delta: StackDiff.TagDelta)
    ensures JoinTags(TagsAfter(CurrentTags(tags), delta)).Ok? <==> forall t :: t in delta.added ==> t.Str?
  {
    TagsAfterMeaning(CurrentTags(tags), delta);
    var r := TagsAfter(CurrentTags(tags), delta);
    if forall t :: t in delta.added ==> t.Str? {
      assert forall i :: 0 <= i < |r| ==> r[i].Str? by {
        forall i | 0 <= i < |r| ensures r[i].Str? {
          assert r[i] in r;
        }
      }
    }
  }

  // ---------------------------------------------------------------------
  // The update of an existing VM
  // ---------------------------------------------------------------------

  /**
   * The calls of a completed update after the stop and the wait: the
   * tags are written first, `set_vms` is called exactly when a setting
   * other than the disk size and the tags changed, the disk is resized
   * exactly when its size changed, and the VM is started last.
   */
  predicate UpdateDone(calls: seq<Call>, name: string, vmid: int, text: string, settings: Proxmox.VmSettings,
                       props: Dict<StackDiff.Delta>, disk: Value) {
    && |calls| >= 2
    && calls[0] == SetTags(name, text)
    && calls[|calls| - 1] == SetStatus(vmid, "start")
    && (SetVms(vmid, name, settings) in calls <==> NeedsSettings(props))
    && (Resize(vmid, NewValue(props, "disk_size"), disk) in calls <==> "disk_size" in Keys(props))
    && (forall c :: c in calls && c.SetVms? ==> c == SetVms(vmid, name, settings))
    && (forall c :: c in calls && c.Resize? ==> c == Resize(vmid, NewValue(props, "disk_size"), disk))
  }

  /**
   * An update raises nothing exactly when the tags are all texts, the new
   * key file (if any) can be read, and `set_vms`, when it is called,
   * accepts the settings.
   */
  lemma ReconfiguredSucceeds(w: World, name: string, vmid: int, tags: string, disk: Value, u: StackDiff.InstanceUpdate,
                             keyFiles: map<string, string>)
    ensures Reconfigured(w, name, vmid, tags, disk, u, keyFiles).1 == None <==>
      && (forall t :: t in u.tags.added ==> t.Str?)
      && UpdatedKey(u.props, keyFiles).Ok?
      && (NeedsSettings(u.props) ==> !Rejected(UpdateSettings(u.props, UpdatedKey(u.props, keyFiles).value)))
  {
    TagsJoinable(tags, u.tags);
  }

  /** The calls an update makes after the tags, when it raises nothing. */
  function AfterTagCalls(name: string, vmid: int, settings: Proxmox.VmSettings, props: Dict<StackDiff.Delta>,
                         disk: Value): seq<Call> {
    (if NeedsSettings(props) then [SetVms(vmid, name, settings)] else []) + ResizeCalls(vmid, props, disk)
  }

  /**
   * Every update starts by stopping the VM and waiting for it; when it
   * raises nothing, the calls that follow are those of UpdateDone.
   */
  lemma ReconfiguredCalls(w: World, name: string, vmid: int, tags: string, disk: Value, u: StackDiff.InstanceUpdate,
                          keyFiles: map<string, string>)
    ensures var e := Reconfigured(w, name, vmid, tags, disk, u, keyFiles);
      && |e.0.log| >= |w.log| + 2 && e.0.log[..|w.log|] == w.log
      && e.0.log[|w.log|] == SetStatus(vmid, "stop") && e.0.log[|w.log| + 1] == WaitStatus(vmid, "stopped")
      && (e.1 == None ==>
            UpdateDone(e.0.log[|w.log| + 2..], name, vmid, JoinTags(TagsAfter(CurrentTags(tags), u.tags)).value,
                       UpdateSettings(u.props, UpdatedKey(u.props, keyFiles).value), u.props, disk))
  {
    RetaggedCalls(w, name, vmid, JoinTags(TagsAfter(CurrentTags(tags), u.tags)), disk, u.props, keyFiles);
  }

  lemma RetaggedCalls(w: World, name: string, vmid: int, joined: Outcome<string>, disk: Value,
                      props: Dict<StackDiff.Delta>, keyFiles: map<string, string>)
    ensures var e := Retagged(w, name, vmid, joined, disk, props, keyFiles);
      && |e.0.log| >= |w.log| + 2 && e.0.log[..|w.log|] == w.log
      && e.0.log[|w.log|] == SetStatus(vmid, "stop") && e.0.log[|w.log| + 1] == WaitStatus(vmid, "stopped")
      && (e.1 == None ==>
            UpdateDone(e.0.log[|w.log| + 2..], name, vmid, joined.value,
                       UpdateSettings(props, UpdatedKey(props, keyFiles).value), props, disk))
  {
    RetaggedStops(w, name, vmid, joined, disk, props, keyFiles);
    if Retagged(w, name, vmid, joined, disk, props, keyFiles).1 == None {
      RetaggedDone(w, name, vmid, joined, disk, props, keyFiles);
    }
  }

  lemma RetaggedStops(w: World, name: string, vmid: int, joined: Outcome<string>, disk: Value,
                      props: Dict<StackDiff.Delta>, keyFiles: map<string, string>)
    ensures var e := Retagged(w, name, vmid, joined, disk, props, keyFiles);
      && |e.0.log| >= |w.log| + 2 && e.0.log[..|w.log|] == w.log
      && e.0.log[|w.log|] == SetStatus(vmid, "stop") && e.0.log[|w.log| + 1] == WaitStatus(vmid, "stopped")
  {
    var stopped := [SetStatus(vmid, "stop"), WaitStatus(vmid, "stopped")];
    if joined.Ok? {
      var w2 := AfterSetTags(Stopped(w, vmid), name, joined.value);
      assert Retagged(w, name, vmid, joined, disk, props, keyFiles) ==
        Resettled(w2, name, vmid, disk, props, UpdatedKey(props, keyFiles));
      ResettledStops(w, name, vmid, joined.value, disk, props, UpdatedKey(props, keyFiles));
    } else {
      Slices(w.log, stopped, []);
    }
  }

  /** RetaggedStops once the tags are joined, for a given key outcome. */
  lemma ResettledStops(w: World, name: string, vmid: int, text: string, disk: Value,
                       props: Dict<StackDiff.Delta>, key: Outcome<Value>)
    ensures var e := Resettled(AfterSetTags(Stopped(w, vmid), name, text), name, vmid, disk, props, key);
      && |e.0.log| >= |w.log| + 2 && e.0.log[..|w.log|] == w.log
      && e.0.log[|w.log|] == SetStatus(vmid, "stop") && e.0.log[|w.log| + 1] == WaitStatus(vmid, "stopped")
  {
    var w2 := AfterSetTags(Stopped(w, vmid), name, text);
    var e := Resettled(w2, name, vmid, disk, props, key);
    var stopped := [SetStatus(vmid, "stop"), WaitStatus(vmid, "stopped")];
    ResettledLog(w2, name, vmid, disk, props, key);
    var after := e.0.log[|w.log| + 2..];
    assert e.0.log == w.log + stopped + after;
    Slices(w.log, stopped, after);
  }

  lemma RetaggedDone(w: World, name: string, vmid: int, joined: Outcome<string>, disk: Value,
                     props: Dict<StackDiff.Delta>, keyFiles: map<string, string>)
    requires Retagged(w, name, vmid, joined, disk, props, keyFiles).1 == None
    ensures joined.Ok? && UpdatedKey(props, keyFiles).Ok?
    ensures var e := Retagged(w, name, vmid, joined, disk, props, keyFiles);
      && |e.0.log| >= |w.log| + 2
      && UpdateDone(e.0.log[|w.log| + 2..], name, vmid, joined.value,
                    UpdateSettings(props, UpdatedKey(props, keyFiles).value), props, disk)
  {
    if joined.Ok? {
      var w2 := AfterSetTags(Stopped(w, vmid), name, joined.value);
      assert Retagged(w, name, vmid, joined, disk, props, keyFiles) ==
        Resettled(w2, name, vmid, disk, props, UpdatedKey(props, keyFiles));
      ResettledDone(w, name, vmid, joined.value, disk, props, UpdatedKey(props, keyFiles));
    }
  }

  /** RetaggedDone once the tags are joined, for a given key outcome. */
  lemma ResettledDone(w: World, name: string, vmid: int, text: string, disk: Value,
                      props: Dict<StackDiff.Delta>, key: Outcome<Value>)
    requires Resettled(AfterSetTags(Stopped(w, vmid), name, text), name, vmid, disk, props, key).1 == None
    ensures key.Ok?
    ensures var e := Resettled(AfterSetTags(Stopped(w, vmid), name, text), name, vmid, disk, props, key);
      && |e.0.log| >= |w.log| + 2
      && UpdateDone(e.0.log[|w.log| + 2..], name, vmid, text, UpdateSettings(props, key.value), props, disk)
  {
    var w2 := AfterSetTags(Stopped(w, vmid), name, text);
    var e := Resettled(w2, name, vmid, disk, props, key);
    var stopped := [SetStatus(vmid, "stop"), WaitStatus(vmid, "stopped")];
    ResettledLog(w2, name, vmid, disk, props, key);
    var settings := UpdateSettings(props, key.value);
    var calls := [SetTags(name, text)] + AfterTagCalls(name, vmid, settings, props, disk);
    assert e.0.log == w.log + stopped + calls;
    UpdateCallsShape(name, vmid, text, settings, props, disk);
    Slices(w.log, stopped, calls);
  }

  lemma Slices<T>(a: seq<T>, b: seq<T>, c: seq<T>)
    ensures (a + b + c)[..|a|] == a && (a + b + c)[|a| + |b|..] == c
    ensures forall i :: 0 <= i < |b| ==> (a + b + c)[|a| + i] == b[i]
  {
  }

  /** The calls after the tags: `set_vms` when needed, the resize when needed, the start. */
  lemma ResettledLog(w: World, name: string, vmid: int, disk: Value, props: Dict<StackDiff.Delta>, key: Outcome<Value>)
    ensures var e := Resettled(w, name, vmid, disk, props, key);
      && (e.1.Some? ==> e.0 == w)
      && (e.1 == None ==> key.Ok? && e.0.log == w.log + AfterTagCalls(name, vmid, UpdateSettings(props, key.value), props, disk))
  {
    if key.Ok? && Settled(w, name, vmid, props, key.value).Ok? {
      SettledRestartedLog(w, name, vmid, disk, props, key.value);
    }
  }

  lemma SettledRestartedLog(w: World, name: string, vmid: int, disk: Value, props: Dict<StackDiff.Delta>, key: Value)
    requires Settled(w, name, vmid, props, key).Ok?
    ensures Restarted(Settled(w, name, vmid, props, key).value, vmid, disk, props).log ==
      w.log + AfterTagCalls(name, vmid, UpdateSettings(props, key), props, disk)
  {
    var w1 := Settled(w, name, vmid, props, key).value;
    RestartedLog(w1, vmid, disk, props);
    SettledLog(w, name, vmid, props, key);
  }

  lemma SettledLog(w: World, name: string, vmid: int, props: Dict<StackDiff.Delta>, key: Value)
    requires Settled(w, name, vmid, props, key).Ok?
    ensures Settled(w, name, vmid, props, key).value.log ==
      w.log + if NeedsSettings(props) then [SetVms(vmid, name, UpdateSettings(props, key))] else []
  {
  }

  /** The calls of Restarted. */
  function ResizeCalls(vmid: int, props: Dict<StackDiff.Delta>, disk: Value): seq<Call> {
    (if "disk_size" in Keys(props) then [SetStatus(vmid, "stop"), Resize(vmid, NewValue(props, "disk_size"), disk)] else [])
    + [SetStatus(vmid, "start")]
  }

  lemma RestartedLog(w: World, vmid: int, disk: Value, props: Dict<StackDiff.Delta>)
    ensures Restarted(w, vmid, disk, props).log == w.log + ResizeCalls(vmid, props, disk)
  {
  }

  lemma UpdateCallsShape(name: string, vmid: int, text: string, settings: Proxmox.VmSettings,
                         props: Dict<StackDiff.Delta>, disk: Value)
    ensures UpdateDone([SetTags(name, text)] + AfterTagCalls(name, vmid, settings, props, disk),
                       name, vmid, text, settings, props, disk)
  {
    var tagged := SetTags(name, text);
    var settle := SetVms(vmid, name, settings);
    var stop := SetStatus(vmid, "stop");
    var resize := Resize(vmid, NewValue(props, "disk_size"), disk);
    var start := SetStatus(vmid, "start");
    var calls := [tagged] + AfterTagCalls(name, vmid, settings, props, disk);
    if NeedsSettings(props) {
      if "disk_size" in Keys(props) {
        assert calls == [tagged, settle, stop, resize, start];
      } else {
        assert calls == [tagged, settle, start];
      }
    } else {
      if "disk_size" in Keys(props) {
        assert calls == [tagged, stop, resize, start];
      } else {
        assert calls == [tagged, start];
      }
    }
  }

  // ---------------------------------------------------------------------
  // Properties of stack_delete
  // ---------------------------------------------------------------------

  /** Deleting VMs by id removes every VM with one of the ids and nothing else. */
  lemma {:induction false} DeleteAllEffect(w: World, ids: seq<int>)
    ensures var out := DeleteAll(w, ids);
      && out.groups == w.groups && out.resources == w.resources && out.nextId == w.nextId
      && (forall v :: v in out.vms <==> v in w.vms && v.vmid !in ids)
    decreases |ids|
  {
    if ids != [] {
      DeleteAllEffect(AfterDeleteVm(w, ids[0]), ids[1..]);
      assert forall id :: id in ids <==> id == ids[0] || id in ids[1..];
    }
  }

  /** Deleting resources by vmid text leaves no resource with one of the texts, and touches nothing else. */
  lemma {:induction false} DeleteResourceTextsEffect(w: World, texts: seq<string>)
    ensures var out := DeleteResourceTexts(w, texts);
      && out.groups == w.groups && out.vms == w.vms && out.nextId == w.nextId
      && (forall x :: x in out.resources <==> x in w.resources && Proxmox.SidVmid(x.sid) !in texts)
    decreases |texts|
  {
    if texts != [] {
      DeleteResourceTextsEffect(AfterDeleteResource(w, texts[0]), texts[1..]);
      assert forall t :: t in texts <==> t == texts[0] || t in texts[1..];
    }
  }

  /** Deleting the stack's groups removes exactly those of them that exist. */
  lemma {:induction false} DeleteGroupsEffect(w: World, stack: string, groups: seq<string>)
    ensures var out := DeleteGroups(w, stack, groups);
      && out.groups == w.groups - RemovedNames(stack, groups)
      && out.vms == w.vms && out.resources == w.resources && out.nextId == w.nextId
    decreases |groups|
  {
    if groups != [] {
      var name := Qualified(stack, groups[0]);
      var next := if name in w.groups then AfterDeleteGroup(w, name) else w;
      DeleteGroupsEffect(next, stack, groups[1..]);
      assert RemovedNames(stack, groups) == {name} + RemovedNames(stack, groups[1..]);
    }
  }

  /**
   * A deleted instance whose VM is found: the VM is stopped if running,
   * and deleting every stopped VM whose name starts with the instance's
   * name succeeds and removes it; groups and resources are untouched.
   */
  lemma InstanceDeletedGone(r: Run, stack: string, instance: string)
    requires Lookup(r.world, Qualified(stack, instance)).Some?
    ensures var id := Lookup(r.world, Qualified(stack, instance)).value.vmid;
      var out := InstanceDeleted(r, stack, instance);
      && out.raised == r.raised && out.expanded == r.expanded
      && out.world.groups == r.world.groups && out.world.resources == r.world.resources
      && (forall v :: v in out.world.vms ==> v.vmid != id)
  {
    var name := Qualified(stack, instance);
    Proxmox.VmByIdOrNameMeaning(Listed(r.world.vms), 0, name);
    var vm := Lookup(r.world, name).value;
    var w := if vm.status == "running" then Stopped(r.world, vm.vmid) else r.world;
    PreparedVmMatches(r.world, vm);
    MatchingVmDeleted(w, name, vm.(status := "stopped"));
  }

  /** Deleting by name prefix removes a stopped VM the prefix matches, and only VMs. */
  lemma MatchingVmDeleted(w: World, prefix: string, vm: Proxmox.Vm)
    requires vm in ListedMatching(w.vms, prefix) && vm.status == "stopped"
    ensures var out := DeleteVmsEffect(w, prefix, -1);
      && out.Ok? && out.value.groups == w.groups && out.value.resources == w.resources
      && (forall v :: v in out.value.vms ==> v.vmid != vm.vmid)
  {
    var listed := ListedMatching(w.vms, prefix);
    Proxmox.StoppedIdsMeaning(listed);
    var ids := Proxmox.StoppedIds(listed);
    assert vm.vmid in ids;
    assert DeleteVmsEffect(w, prefix, -1) == Ok(DeleteAll(w, ids));
    DeleteAllEffect(w, ids);
  }

  /** A listed VM, once stopped if it was running, is listed as stopped under its own name. */
  lemma PreparedVmMatches(w: World, vm: Proxmox.Vm)
    requires vm in Listed(w.vms)
    ensures var w' := if vm.status == "running" then Stopped(w, vm.vmid) else w;
      vm.(status := "stopped") in ListedMatching(w'.vms, vm.name)
  {
    var w' := if vm.status == "running" then Stopped(w, vm.vmid) else w;
    StopLeavesStopped(w, vm.vmid);
    assert vm.(status := "stopped") in Listed(w'.vms);
    assert vm.name[..|vm.name|] == vm.name;
  }

  /** Deleting instances changes no group and no resource. */
  lemma {:induction false} DeleteInstancesKeeps(r: Run, stack: string, instances: seq<string>)
    ensures var out := DeleteInstances(r, stack, instances);
      out.world.groups == r.world.groups && out.world.resources == r.world.resources
    decreases |instances|
  {
    if instances != [] {
      var name := Qualified(stack, instances[0]);
      if Lookup(r.world, name).Some? {
        InstanceDeletedGone(r, stack, instances[0]);
      }
      DeleteInstancesKeeps(InstanceDeleted(r, stack, instances[0]), stack, instances[1..]);
    }
  }

  /**
   * As written, `stack_delete` never completes: once the resources that
   * match `^<stack>-` are deleted, the vmid test of `delete_ha_resources`
   * raises TypeError, before any group or VM is deleted and before the
   * state file is removed.
   */
  lemma DeleteAsWrittenRaises(w: World, expanded: StackConfig.Config, files: Files, stack: string)
    ensures var out := DeleteSpec(w, expanded, files, stack, None);
      && out.raised.Some? && out.files == files && out.world.groups == w.groups && out.world.vms == w.vms
      && (stack in Keys(expanded) && ResourceEntries(w.vms, w.resources).Ok?
          && Proxmox.FilterDeletions(ResourceEntries(w.vms, w.resources).value, StackFilter(stack)).raised == None
          ==> out.raised.value.TypeError?)
  {
    if stack in Keys(expanded) && ResourceEntries(w.vms, w.resources).Ok? {
      var entries := ResourceEntries(w.vms, w.resources).value;
      var d := Proxmox.DeleteHaResources(entries, "^" + stack + "-", StackFilter(stack), None);
      Proxmox.DeleteByFilterAlwaysRaises(entries, "^" + stack + "-", StackFilter(stack));
      DeleteResourceTextsEffect(w, d.deleted);
    }
  }

  /**
   * With the vmid guarded, a `stack_delete` that raises nothing removes
   * every group of the stack and no other, every HA resource whose VM's
   * name starts with `<stack>-` and whose vmid is a positive number, and
   * the state file; no other file changes.
   */
  lemma GuardedDeleteClears(w: World, expanded: StackConfig.Config, files: Files, stack: string)
    ensures var out := DeleteSpec(w, expanded, files, stack, Some(-1));
      out.raised == None ==>
        && ResourceEntries(w.vms, w.resources).Ok?
        && out.files == files - {(stack, StateFile)}
        && out.world.groups == w.groups - RemovedNames(stack, Keys(Desired(expanded, stack).haGroups))
        && (forall e, x :: e in ResourceEntries(w.vms, w.resources).value && StartsWith(e.name, stack + "-")
              && Proxmox.VmidOf(e).Some? && Proxmox.VmidOf(e).value > 0 && x in out.world.resources
              ==> Proxmox.SidVmid(x.sid) != Proxmox.SidVmid(e.sid))
  {
    var out := DeleteSpec(w, expanded, files, stack, Some(-1));
    if out.raised == None {
      var project := Desired(expanded, stack);
      var entries := ResourceEntries(w.vms, w.resources).value;
      var d := Proxmox.DeleteHaResources(entries, "^" + stack + "-", StackFilter(stack), Some(-1));
      Proxmox.GuardedFilterDeletion(entries, "^" + stack + "-", StackFilter(stack));
      assert d == Proxmox.FilterDeletions(entries, StackFilter(stack));
      Proxmox.FilterDeletionsDeleted(entries, StackFilter(stack));
      var w1 := DeleteResourceTexts(w, d.deleted);
      DeleteResourceTextsEffect(w, d.deleted);
      var w2 := DeleteGroups(w1, stack, Keys(project.haGroups));
      DeleteGroupsEffect(w1, stack, Keys(project.haGroups));
      DeleteInstancesKeeps(Run(w2, expanded, None, None), stack, Keys(project.instances));
    }
  }

  // ---------------------------------------------------------------------
  // Properties of the whole apply run
  // ---------------------------------------------------------------------

  /** Recording a vmid keeps the configuration's stacks. */
  lemma ConfiguredKeys(r: Run, stack: string, instance: string, keyFiles: map<string, string>, home: string)
    requires stack in Keys(r.expanded)
    ensures Keys(Configured(r, stack, instance, keyFiles, home).expanded) == Keys(r.expanded)
  {
    var vm := Lookup(r.world, Qualified(stack, instance));
    if vm.Some? && r.bound.Some? {
      ConfiguredBound(r, stack, instance, keyFiles, home);
      var project := Desired(r.expanded, stack);
      var body := Get(project.instances, r.bound.value).GetOr(map[]);
      PutKeys(r.expanded, stack,
              StackConfig.Project(project.haGroups, Put(project.instances, r.bound.value, body["vmid" := Int(vm.value.vmid)])));
    }
  }

  lemma InstanceAddedKeys(r: Run, stack: string, instance: string, keyFiles: map<string, string>, home: string)
    requires stack in Keys(r.expanded)
    ensures Keys(InstanceAdded(r, stack, instance, keyFiles, home).expanded) == Keys(r.expanded)
  {
    if Lookup(r.world, Qualified(stack, instance)).Some? {
      ConfiguredKeys(r, stack, instance, keyFiles, home);
    } else {
      var c := Cloned(r, stack, instance);
      assert c.expanded == r.expanded;
      ConfiguredKeys(c, stack, instance, keyFiles, home);
    }
  }

  lemma {:induction false} AddInstancesKeys(r: Run, stack: string, instances: seq<string>,
                                            keyFiles: map<string, string>, home: string)
    requires stack in Keys(r.expanded)
    ensures Keys(AddInstances(r, stack, instances, keyFiles, home).expanded) == Keys(r.expanded)
    decreases |instances|
  {
    if instances != [] {
      InstanceAddedKeys(r, stack, instances[0], keyFiles, home);
      var next := InstanceAdded(r, stack, instances[0], keyFiles, home);
      if next.raised == None {
        AddInstancesKeys(next, stack, instances[1..], keyFiles, home);
      }
    }
  }

  lemma {:induction false} RemoveInstancesExpanded(r: Run, stack: string, instances: seq<string>)
    ensures RemoveInstances(r, stack, instances).expanded == r.expanded
    decreases |instances|
  {
    if instances != [] {
      RemoveInstancesExpanded(InstanceRemoved(r, stack, instances[0]), stack, instances[1..]);
    }
  }

  lemma {:induction false} UpdateInstancesExpanded(r: Run, stack: string, updated: Dict<StackDiff.InstanceUpdate>,
                                                   keyFiles: map<string, string>)
    ensures UpdateInstances(r, stack, updated, keyFiles).expanded == r.expanded
    decreases |updated|
  {
    if updated != [] {
      UpdateInstancesExpanded(InstanceUpdated(r, stack, updated[0].0, updated[0].1, keyFiles), stack, updated[1..], keyFiles);
    }
  }

  /** The phases keep the configuration's stacks: only vmids are written into it. */
  lemma ApplyPhasesKeys(r: Run, stack: string, plan: StackDiff.Plan, keyFiles: map<string, string>, home: string)
    requires stack in Keys(r.expanded) && r.raised == None
    ensures Keys(ApplyPhases(r, stack, plan, keyFiles, home).expanded) == Keys(r.expanded)
  {
    AddGroupsEffect(r, stack, plan.haGroups.added);
    var r2 := AddGroups(r, stack, plan.haGroups.added);
    var r3 := r2.(world := UpdateGroups(r2.world, stack, plan.haGroups.updated));
    RemoveInstancesExpanded(r3, stack, plan.instances.removed);
    var r4 := RemoveInstances(r3, stack, plan.instances.removed);
    AddInstancesKeys(r4, stack, plan.instances.added, keyFiles, home);
    var r5 := AddInstances(r4, stack, plan.instances.added, keyFiles, home);
    UpdateInstancesExpanded(r5, stack, plan.instances.updated, keyFiles);
  }

  /**
   * `stack_apply`: without a plan file it exits with status 2 and
   * changes nothing; with a plan but no such stack it raises KeyError and
   * changes nothing; otherwise the files change only when every phase succeeded: the
   * state file then holds the stack's configuration as the run left it
   * (with the new vmids) and the plan file is gone.
   */
  lemma ApplyOutcome(w: World, expanded: StackConfig.Config, files: Files, stack: string,
                     keyFiles: map<string, string>, home: string)
    requires FilesValid(files)
    ensures var out := ApplySpec(w, expanded, files, stack, keyFiles, home);
      && ((stack, PlanFile) !in files ==> out == Applied(w, expanded, files, Some(SystemExit(2))))
      && ((stack, PlanFile) in files && stack !in Keys(expanded) ==> out == Applied(w, expanded, files, Some(KeyError(stack))))
      && (out.raised.Some? ==> out.files == files)
      && (out.raised == None ==>
            && Keys(out.expanded) == Keys(expanded)
            && out.files == files[(stack, StateFile) := StateDoc(Desired(out.expanded, stack))] - {(stack, PlanFile)})
  {
    var out := ApplySpec(w, expanded, files, stack, keyFiles, home);
    if (stack, PlanFile) in files && stack in Keys(expanded) {
      var plan := files[(stack, PlanFile)].plan;
      var start := Run(RemoveGroups(w, stack, plan.haGroups.removed), expanded, None, None);
      ApplyPhasesKeys(start, stack, plan, keyFiles, home);
    }
  }

  // ---------------------------------------------------------------------
  // The password and user of an updated instance
  // ---------------------------------------------------------------------

  /** The settings the update as written passes: password and user read under `cipassword` and `ciuser`. */
  function WrittenUpdateSettings(props: Dict<StackDiff.Delta>, key: Value): Proxmox.VmSettings {
    Proxmox.VmSettings(NewValue(props, "cores"), Null, Null, NewValue(props, "memory"), NewValue(props, "cipassword"),
                       Null, NewValue(props, "ciuser"), NewValue(props, "ipconfig"), Null, key)
  }

  /**
   * As written, an update reads the new password and user under
   * `cipassword` and `ciuser`, while an instance holds them under
   * `password` and `user` (the names the add phase reads). A changed
   * password therefore calls `set_vms`, but with no password.
   */
  lemma PasswordChangeNotSent(props: Dict<StackDiff.Delta>, key: Value)
    requires "password" in Keys(props) && "cipassword" !in Keys(props)
    ensures NeedsSettings(props)
    ensures WrittenUpdateSettings(props, key).cipassword == Null
  {
    var i :| 0 <= i < |props| && props[i].0 == "password";
    assert props[i].0 != "disk_size" && props[i].0 != "tags";
  }

  /** The smallest such update: only the password changed. */
  lemma PasswordChangeExample()
    ensures var props := [("password", StackDiff.Delta(Str("old"), Str("new")))];
      NeedsSettings(props) && WrittenUpdateSettings(props, Null).cipassword == Null
  {
    var props := [("password", StackDiff.Delta(Str("old"), Str("new")))];
    assert Keys(props) == ["password"];
    PasswordChangeNotSent(props, Null);
  }

  /**
   * With the intended reading, every changed setting reaches `set_vms`
   * with its new value, a setting that did not change is passed as None,
   * and the sockets, cpu limit, cloud-init type and boot order are left
   * alone.
   */
  lemma IntendedSettingsCarryChanges(props: Dict<StackDiff.Delta>, key: Value)
    ensures var s := UpdateSettings(props, key);
      && (forall k :: k in ["cores", "memory", "password", "user", "ipconfig"] ==>
            var v := if k == "cores" then s.cores else if k == "memory" then s.memory
                     else if k == "password" then s.cipassword else if k == "user" then s.ciuser else s.ipconfig;
            (k in Keys(props) ==> v == Get(props, k).value.newValue) && (k !in Keys(props) ==> v == Null))
      && s.sockets == Null && s.cpulimit == Null && s.citype == Null && s.boot == Null && s.sshkey == key
  {
  }
}
