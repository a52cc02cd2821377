/**
 * The stack commands as the object that runs them: it holds the expanded
 * configuration, the files under `~/.proxcli` and a client of the
 * cluster, and changes them step by step. Each method is proved to leave
 * exactly the state the matching function of StackApply describes.
 */
module Operations {
  import opened Wrappers
  import opened Values
  import opened Dicts
  import opened ClusterState
  import opened StackApply
  import StackConfig
  import StackDiff
  import Proxmox

  class StackOperations {
    const cluster: Cluster
    const keyFiles: map<string, string>
    const home: string
    var expanded: StackConfig.Config
    var files: Files

    /** Plan files hold plans and state files hold projects. */
    predicate Valid()
      reads this
    {
      FilesValid(files)
    }

    constructor (cluster: Cluster, expanded: StackConfig.Config, files: Files, keyFiles: map<string, string>,
                 home: string)
      requires FilesValid(files)
      ensures Valid()
      ensures this.cluster == cluster && this.expanded == expanded && this.files == files
      ensures this.keyFiles == keyFiles && this.home == home
    {
      this.cluster := cluster;
      this.expanded := expanded;
      this.files := files;
      this.keyFiles := keyFiles;
      this.home := home;
    }

    /** `load_stack_data(stack, file_type)`. */
    function LoadStackData(stack: string, fileType: string): (r: Option<Document>)
      reads this
      ensures r.Some? <==> (stack, KindOf(fileType)) in files
      ensures r.Some? ==> r.value == files[(stack, KindOf(fileType))]
    {
      Load(files, stack, fileType)
    }

    /** `stack_write_plan(stack, plan)`. */
    method WritePlan(stack: string, plan: StackDiff.Plan)
      requires Valid()
      modifies this
      ensures Valid()
      ensures files == StorePlan(old(files), stack, plan) && expanded == old(expanded)
    {
      files := StorePlan(files, stack, plan);
    }

    /** `stack_write_state(stack, config)`: the config argument is not used. */
    method WriteState(stack: string, config: StackConfig.Project) returns (raised: Option<Error>)
      requires Valid()
      modifies this
      ensures Valid() && expanded == old(expanded)
      ensures match StoreState(old(files), stack, expanded)
              case Ok(f) => raised == None && files == f
              case Err(e) => raised == Some(e) && files == old(files)
    {
      var project := Get(expanded, stack);
      if project.None? {
        return Some(KeyError(stack));
      }
      files := files[(stack, StateFile) := StateDoc(project.value)];
      return None;
    }

    // -------------------------------------------------------------------
    // stack_apply
    // -------------------------------------------------------------------

    /** The groups the plan removes: for each, its resources and then the group. */
    method RemoveStackGroups(stack: string, groups: seq<string>)
      modifies cluster
      ensures cluster.State() == RemoveGroups(old(cluster.State()), stack, groups)
    {
      var i := 0;
      while i < |groups|
        invariant 0 <= i <= |groups|
        invariant RemoveGroups(old(cluster.State()), stack, groups) == RemoveGroups(cluster.State(), stack, groups[i..])
      {
        assert groups[i..][1..] == groups[i + 1..];
        var name := Qualified(stack, groups[i]);
        cluster.DeleteGroupResources(name);
        cluster.DeleteHaGroup(name);
        i := i + 1;
      }
    }

    /** One added group. */
    method AddGroup(stack: string, group: string) returns (raised: Option<Error>)
      modifies cluster
      ensures Run(cluster.State(), expanded, None, raised) ==
        GroupAdded(Run(old(cluster.State()), expanded, None, None), stack, group)
    {
      var content := Get(Desired(expanded, stack).haGroups, group);
      if content.None? {
        return Some(KeyError(group));
      }
      var name := Qualified(stack, group);
      if cluster.ExistsHaGroup(name) {
        return None;
      }
      var request := GroupRequest(name, content.value);
      if request.Err? {
        return Some(request.error);
      }
      cluster.CreateHaGroup(request.value);
      return None;
    }

    /** The groups the plan adds, until one raises. */
    method AddStackGroups(stack: string, groups: seq<string>) returns (raised: Option<Error>)
      modifies cluster
      ensures Run(cluster.State(), expanded, None, raised) ==
        AddGroups(Run(old(cluster.State()), expanded, None, None), stack, groups)
    {
      var i := 0;
      while i < |groups|
        invariant 0 <= i <= |groups|
        invariant AddGroups(Run(old(cluster.State()), expanded, None, None), stack, groups) ==
          AddGroups(Run(cluster.State(), expanded, None, None), stack, groups[i..])
      {
        assert groups[i..][1..] == groups[i + 1..];
        raised := AddGroup(stack, groups[i]);
        if raised.Some? {
          return;
        }
        i := i + 1;
      }
      return None;
    }

    /** `update_ha_resource(sid)` for each sid, with no limits. */
    method UpdateGroupResources(sids: seq<string>)
      modifies cluster
      ensures cluster.State() == UpdateResources(old(cluster.State()), sids)
    {
      var j := 0;
      while j < |sids|
        invariant 0 <= j <= |sids|
        invariant UpdateResources(old(cluster.State()), sids) == UpdateResources(cluster.State(), sids[j..])
      {
        assert sids[j..][1..] == sids[j + 1..];
        cluster.Send(UpdateResource(sids[j], Null, Null));
        j := j + 1;
      }
    }

    /** The groups the plan updates. */
    method UpdateStackGroups(stack: string, updated: Dict<Dict<StackDiff.Delta>>)
      modifies cluster
      ensures cluster.State() == UpdateGroups(old(cluster.State()), stack, updated)
    {
      var i := 0;
      while i < |updated|
        invariant 0 <= i <= |updated|
        invariant UpdateGroups(old(cluster.State()), stack, updated) == UpdateGroups(cluster.State(), stack, updated[i..])
      {
        assert updated[i..][1..] == updated[i + 1..];
        var name := Qualified(stack, updated[i].0);
        var content := updated[i].1;
        cluster.Send(UpdateGroup(name, NewValue(content, "nodes"), NewValue(content, "nofailback"),
                                 NewValue(content, "restricted")));
        if "max_restart" in Keys(content) || "max_relocate" in Keys(content) {
          UpdateGroupResources(GroupSids(cluster.resources, name));
        }
        i := i + 1;
      }
    }

    /** `delete_vms(fitler_name="^<prefix>", vmid=vmid)`. */
    method DeleteMatchingVms(prefix: string, vmid: int) returns (raised: Option<Error>)
      modifies cluster
      ensures match DeleteVmsEffect(old(cluster.State()), prefix, vmid)
              case Ok(w) => raised == None && cluster.State() == w
              case Err(e) => raised == Some(e) && cluster.State() == old(cluster.State())
    {
      var ids := Proxmox.DeleteVms(ListedMatching(cluster.vms, prefix), vmid);
      if ids.Err? {
        return Some(ids.error);
      }
      var k := 0;
      while k < |ids.value|
        invariant 0 <= k <= |ids.value|
        invariant DeleteAll(old(cluster.State()), ids.value) == DeleteAll(cluster.State(), ids.value[k..])
      {
        assert ids.value[k..][1..] == ids.value[k + 1..];
        cluster.DeleteQemu(ids.value[k]);
        k := k + 1;
      }
      return None;
    }

    /** Stopping a VM and waiting until it reports stopped. */
    method StopAndWait(vmid: int)
      modifies cluster
      ensures cluster.State() == Stopped(old(cluster.State()), vmid)
    {
      cluster.SetVmsStatus(vmid, "stop");
      cluster.Send(WaitStatus(vmid, "stopped"));
    }

    /** One removed instance. */
    method RemoveInstance(stack: string, instance: string, bound: Option<string>) returns (raised: Option<Error>)
      modifies cluster
      ensures Run(cluster.State(), expanded, bound, raised) ==
        InstanceRemoved(Run(old(cluster.State()), expanded, bound, None), stack, instance)
    {
      var vm := cluster.VmByName(Qualified(stack, instance));
      if vm.None? {
        return None;
      }
      StopAndWait(vm.value.vmid);
      if vm.value.vmid > 0 {
        cluster.DeleteHaResources(vm.value.vmid);
      }
      raised := DeleteMatchingVms("", vm.value.vmid);
    }

    /** The instances the plan removes, until one raises. */
    method RemoveStackInstances(stack: string, instances: seq<string>, bound: Option<string>)
      returns (raised: Option<Error>)
      modifies cluster
      ensures Run(cluster.State(), expanded, bound, raised) ==
        RemoveInstances(Run(old(cluster.State()), expanded, bound, None), stack, instances)
    {
      var i := 0;
      while i < |instances|
        invariant 0 <= i <= |instances|
        invariant RemoveInstances(Run(old(cluster.State()), expanded, bound, None), stack, instances) ==
          RemoveInstances(Run(cluster.State(), expanded, bound, None), stack, instances[i..])
      {
        assert instances[i..][1..] == instances[i + 1..];
        ghost var before := Run(cluster.State(), expanded, bound, None);
        raised := RemoveInstance(stack, instances[i], bound);
        ghost var next := Run(cluster.State(), expanded, bound, raised);
        assert next == InstanceRemoved(before, stack, instances[i]);
        assert RemoveInstances(before, stack, instances[i..]) ==
          if next.raised.Some? then next else RemoveInstances(next, stack, instances[i + 1..]);
        if raised.Some? {
          return;
        }
        i := i + 1;
      }
      return None;
    }

    /** `set_vms` with the given settings, unless it rejects them. */
    method SetVms(vmid: int, vmname: string, settings: Proxmox.VmSettings) returns (raised: Option<Error>)
      modifies cluster
      ensures match SetVmsEffect(old(cluster.State()), vmid, vmname, settings)
              case Ok(w) => raised == None && cluster.State() == w
              case Err(e) => raised == Some(e) && cluster.State() == old(cluster.State())
    {
      var payload := Proxmox.SetVmsPayload(settings);
      if payload.Err? {
        return Some(TypeError("set_vms argument"));
      }
      cluster.Send(Call.SetVms(vmid, vmname, settings));
      return None;
    }

    /** The disk, the tags and the HA resource of a new instance. */
    method ConfigureVm(name: string, vmid: int, cfg: Spec, groups: Dict<Spec>, stack: string)
      returns (raised: Option<Error>)
      modifies cluster
      ensures (cluster.State(), raised) == Configure(old(cluster.State()), name, vmid, cfg, groups, stack)
    {
      if "disk_size" !in cfg {
        return Some(KeyError("disk_size"));
      }
      if "disk_device" !in cfg {
        return Some(KeyError("disk_device"));
      }
      cluster.Send(Resize(vmid, cfg["disk_size"], cfg["disk_device"]));
      if "tags" !in cfg {
        return Some(KeyError("tags"));
      }
      var tags := JoinValue(cfg["tags"]);
      if tags.Err? {
        return Some(tags.error);
      }
      cluster.SetVmTags(name, tags.value);
      var a := ResourceArguments(cfg, groups);
      if a.Err? {
        return Some(a.error);
      }
      cluster.CreateHaResource(Qualified(stack, a.value.0), vmid, a.value.1, a.value.2);
      return None;
    }

    /** The settings, the disk, the tags and the HA resource of a new instance. */
    method ProvisionVm(name: string, vmid: int, cfg: Spec, groups: Dict<Spec>, stack: string)
      returns (raised: Option<Error>)
      modifies cluster
      ensures (cluster.State(), raised) == Provision(old(cluster.State()), name, vmid, cfg, groups, stack, keyFiles, home)
    {
      var keyPath := Field(cfg, "sshkey");
      if keyPath.Err? {
        return Some(keyPath.error);
      }
      if !keyPath.value.Str? {
        return Some(TypeError("expected str"));
      }
      var key := ReadFile(keyFiles, ExpandUser(keyPath.value.s, home));
      if key.Err? {
        return Some(key.error);
      }
      var settings := ProvisionSettings(cfg, key.value);
      if settings.Err? {
        return Some(settings.error);
      }
      raised := SetVms(vmid, "", settings.value);
      if raised.Some? {
        return;
      }
      raised := ConfigureVm(name, vmid, cfg, groups, stack);
    }

    /** The configuration of an instance whose VM exists, through the body `cfg_instances` is bound to. */
    method ConfigureInstance(stack: string, instance: string, bound: Option<string>) returns (raised: Option<Error>)
      modifies this, cluster
      ensures Run(cluster.State(), expanded, bound, raised) ==
        Configured(Run(old(cluster.State()), old(expanded), bound, None), stack, instance, keyFiles, home)
      ensures files == old(files)
    {
      var name := Qualified(stack, instance);
      var vm := cluster.VmByName(name);
      if vm.None? {
        return Some(TypeError("'bool' object is not subscriptable"));
      }
      if bound.None? {
        return Some(UnboundLocal("cfg_instances"));
      }
      expanded := WithVmid(expanded, stack, bound.value, vm.value.vmid);
      raised := ProvisionVm(name, vm.value.vmid, BoundBody(expanded, stack, bound.value), Desired(expanded, stack).haGroups,
                            stack);
    }

    /** The clone of a new instance; `cfg_instances` is bound to it once its body is found. */
    method CloneInstance(stack: string, instance: string, bound: Option<string>)
      returns (bound': Option<string>, raised: Option<Error>)
      modifies cluster
      ensures Run(cluster.State(), expanded, bound', raised) ==
        Cloned(Run(old(cluster.State()), expanded, bound, None), stack, instance)
    {
      var cfg := Get(Desired(expanded, stack).instances, instance);
      if cfg.None? {
        return bound, Some(KeyError(instance));
      }
      bound' := Some(instance);
      var source := CloneSource(cfg.value);
      if source.Err? {
        return bound', Some(source.error);
      }
      var cloned := cluster.CloneVm(source.value, Qualified(stack, instance));
      if cloned.Err? {
        return bound', Some(cloned.error);
      }
      return bound', None;
    }

    /** One added instance: cloned when no VM has its name, then configured. */
    method AddInstance(stack: string, instance: string, bound: Option<string>)
      returns (bound': Option<string>, raised: Option<Error>)
      modifies this, cluster
      ensures Run(cluster.State(), expanded, bound', raised) ==
        InstanceAdded(Run(old(cluster.State()), old(expanded), bound, None), stack, instance, keyFiles, home)
      ensures files == old(files)
    {
      bound' := bound;
      if cluster.VmByName(Qualified(stack, instance)).None? {
        bound', raised := CloneInstance(stack, instance, bound);
        if raised.Some? {
          return;
        }
      }
      raised := ConfigureInstance(stack, instance, bound');
    }

    /** The instances the plan adds, until one raises; `cfg_instances` stays bound from one to the next. */
    method AddStackInstances(stack: string, instances: seq<string>, bound: Option<string>)
      returns (bound': Option<string>, raised: Option<Error>)
      modifies this, cluster
      ensures Run(cluster.State(), expanded, bound', raised) ==
        AddInstances(Run(old(cluster.State()), old(expanded), bound, None), stack, instances, keyFiles, home)
      ensures files == old(files)
    {
      bound' := bound;
      var i := 0;
      while i < |instances|
        invariant 0 <= i <= |instances|
        invariant files == old(files)
        invariant AddInstances(Run(old(cluster.State()), old(expanded), bound, None), stack, instances, keyFiles, home) ==
          AddInstances(Run(cluster.State(), expanded, bound', None), stack, instances[i..], keyFiles, home)
      {
        assert instances[i..][1..] == instances[i + 1..];
        bound', raised := AddInstance(stack, instances[i], bound');
        if raised.Some? {
          return;
        }
        i := i + 1;
      }
      return bound', None;
    }

    /** Each removed tag dropped once, when the list holds it (`tags.remove(t)`). */
    method RemoveTags(current: seq<Value>, removed: seq<Value>) returns (tags: seq<Value>)
      ensures tags == RemoveEach(current, removed)
    {
      tags := current;
      var j := 0;
      while j < |removed|
        invariant 0 <= j <= |removed|
        invariant RemoveEach(current, removed) == RemoveEach(tags, removed[j..])
      {
        assert removed[j..][1..] == removed[j + 1..];
        if removed[j] in tags {
          tags := RemoveFirst(tags, removed[j]);
        }
        j := j + 1;
      }
    }

    /** Each added tag appended, when the list does not hold it yet. */
    method AppendTags(kept: seq<Value>, added: seq<Value>) returns (tags: seq<Value>)
      ensures tags == StackDiff.AppendNew(kept, added)
    {
      tags := kept;
      var j := 0;
      while j < |added|
        invariant 0 <= j <= |added|
        invariant tags == StackDiff.AppendNew(kept, added[..j])
      {
        assert added[..j + 1][..j] == added[..j];
        if added[j] !in tags {
          tags := tags + [added[j]];
        }
        j := j + 1;
      }
      assert added[..j] == added;
    }

    /** The tag delta applied to the VM's current tags: the removed ones first, then the added ones. */
    method ApplyTagDelta(current: seq<Value>, delta: StackDiff.TagDelta) returns (tags: seq<Value>)
      ensures tags == TagsAfter(current, delta)
    {
      var kept := RemoveTags(current, delta.removed);
      tags := AppendTags(kept, delta.added);
    }

    /** The disk resized when its size changed, then the VM started. */
    method Restart(vmid: int, disk: Value, props: Dict<StackDiff.Delta>)
      modifies cluster
      ensures cluster.State() == Restarted(old(cluster.State()), vmid, disk, props)
    {
      if "disk_size" in Keys(props) {
        cluster.SetVmsStatus(vmid, "stop");
        cluster.Send(Resize(vmid, NewValue(props, "disk_size"), disk));
      }
      cluster.SetVmsStatus(vmid, "start");
    }

    /** After the tags: the key file read, `set_vms` when needed, then the restart. */
    method Resettle(name: string, vmid: int, disk: Value, props: Dict<StackDiff.Delta>) returns (raised: Option<Error>)
      modifies cluster
      ensures (cluster.State(), raised) ==
        Resettled(old(cluster.State()), name, vmid, disk, props, UpdatedKey(props, keyFiles))
    {
      var key := UpdatedKey(props, keyFiles);
      if key.Err? {
        return Some(key.error);
      }
      if NeedsSettings(props) {
        raised := SetVms(vmid, name, UpdateSettings(props, key.value));
        if raised.Some? {
          return;
        }
      }
      Restart(vmid, disk, props);
      return None;
    }

    /** One updated instance. */
    method UpdateInstance(stack: string, instance: string, u: StackDiff.InstanceUpdate, bound: Option<string>)
      returns (raised: Option<Error>)
      modifies cluster
      ensures Run(cluster.State(), expanded, bound, raised) ==
        InstanceUpdated(Run(old(cluster.State()), expanded, bound, None), stack, instance, u, keyFiles)
    {
      var name := Qualified(stack, instance);
      var vm := cluster.VmByName(name);
      var disk := DiskDevice(expanded, stack, instance);
      if disk.Err? {
        return Some(disk.error);
      }
      if vm.None? {
        return Some(TypeError("'bool' object is not subscriptable"));
      }
      var vmid := vm.value.vmid;
      StopAndWait(vmid);
      var tags := ApplyTagDelta(CurrentTags(vm.value.tags), u.tags);
      var joined := JoinTags(tags);
      if joined.Err? {
        return Some(joined.error);
      }
      cluster.SetVmTags(name, joined.value);
      raised := Resettle(name, vmid, disk.value, u.props);
    }

    /** The instances the plan updates, until one raises. */
    method UpdateStackInstances(stack: string, updated: Dict<StackDiff.InstanceUpdate>, bound: Option<string>)
      returns (raised: Option<Error>)
      modifies cluster
      ensures Run(cluster.State(), expanded, bound, raised) ==
        UpdateInstances(Run(old(cluster.State()), expanded, bound, None), stack, updated, keyFiles)
    {
      var i := 0;
      while i < |updated|
        invariant 0 <= i <= |updated|
        invariant UpdateInstances(Run(old(cluster.State()), expanded, bound, None), stack, updated, keyFiles) ==
          UpdateInstances(Run(cluster.State(), expanded, bound, None), stack, updated[i..], keyFiles)
      {
        assert updated[i..][1..] == updated[i + 1..];
        ghost var before := Run(cluster.State(), expanded, bound, None);
        raised := UpdateInstance(stack, updated[i].0, updated[i].1, bound);
        ghost var next := Run(cluster.State(), expanded, bound, raised);
        assert next == InstanceUpdated(before, stack, updated[i].0, updated[i].1, keyFiles);
        assert UpdateInstances(before, stack, updated[i..], keyFiles) ==
          if next.raised.Some? then next else UpdateInstances(next, stack, updated[i + 1..], keyFiles);
        if raised.Some? {
          return;
        }
        i := i + 1;
      }
      return None;
    }

    /**
     * `stack_apply(stack)`: the saved plan applied phase by phase; on
     * success the state file is written and the plan file removed.
     */
    method Apply(stack: string) returns (raised: Option<Error>)
      requires Valid()
      modifies this, cluster
      ensures Valid()
      ensures Applied(cluster.State(), expanded, files, raised) ==
        ApplySpec(old(cluster.State()), old(expanded), old(files), stack, keyFiles, home)
    {
      var doc := LoadStackData(stack, "plan");
      if doc.None? {
        return Some(SystemExit(2));
      }
      if stack !in Keys(expanded) {
        return Some(KeyError(stack));
      }
      var plan := doc.value.plan;
      RemoveStackGroups(stack, plan.haGroups.removed);
      ghost var start := Run(cluster.State(), expanded, None, None);
      raised := AddStackGroups(stack, plan.haGroups.added);
      if raised.Some? {
        return;
      }
      UpdateStackGroups(stack, plan.haGroups.updated);
      raised := RemoveStackInstances(stack, plan.instances.removed, None);
      if raised.Some? {
        return;
      }
      var bound;
      bound, raised := AddStackInstances(stack, plan.instances.added, None);
      if raised.Some? {
        return;
      }
      raised := UpdateStackInstances(stack, plan.instances.updated, bound);
      assert Run(cluster.State(), expanded, bound, raised) == ApplyPhases(start, stack, plan, keyFiles, home);
      if raised.Some? {
        return;
      }
      raised := WriteState(stack, Desired(expanded, stack));
      if raised.Some? {
        return;
      }
      files := files - {(stack, PlanFile)};
    }

    /** One of the stack's instances deleted, stopped first when running. */
    method DeleteInstance(stack: string, instance: string) returns (raised: Option<Error>)
      modifies cluster
      ensures Run(cluster.State(), expanded, None, raised) ==
        InstanceDeleted(Run(old(cluster.State()), expanded, None, None), stack, instance)
    {
      var name := Qualified(stack, instance);
      var vm := cluster.VmByName(name);
      if vm.None? {
        return None;
      }
      if vm.value.status == "running" {
        StopAndWait(vm.value.vmid);
      }
      raised := DeleteMatchingVms(name, -1);
    }

    /** The stack's instances deleted, until one raises. */
    method DeleteStackInstances(stack: string, instances: seq<string>) returns (raised: Option<Error>)
      modifies cluster
      ensures Run(cluster.State(), expanded, None, raised) ==
        DeleteInstances(Run(old(cluster.State()), expanded, None, None), stack, instances)
    {
      var i := 0;
      while i < |instances|
        invariant 0 <= i <= |instances|
        invariant DeleteInstances(Run(old(cluster.State()), expanded, None, None), stack, instances) ==
          DeleteInstances(Run(cluster.State(), expanded, None, None), stack, instances[i..])
      {
        assert instances[i..][1..] == instances[i + 1..];
        ghost var before := Run(cluster.State(), expanded, None, None);
        raised := DeleteInstance(stack, instances[i]);
        ghost var next := Run(cluster.State(), expanded, None, raised);
        assert next == InstanceDeleted(before, stack, instances[i]);
        assert DeleteInstances(before, stack, instances[i..]) ==
          if next.raised.Some? then next else DeleteInstances(next, stack, instances[i + 1..]);
        if raised.Some? {
          return;
        }
        i := i + 1;
      }
      return None;
    }

    /** The HA resources chosen for deletion, deleted in turn. */
    method DeleteResources(texts: seq<string>)
      modifies cluster
      ensures cluster.State() == DeleteResourceTexts(old(cluster.State()), texts)
    {
      var i := 0;
      while i < |texts|
        invariant 0 <= i <= |texts|
        invariant DeleteResourceTexts(old(cluster.State()), texts) == DeleteResourceTexts(cluster.State(), texts[i..])
      {
        assert texts[i..][1..] == texts[i + 1..];
        cluster.DeleteHaResource(texts[i]);
        i := i + 1;
      }
    }

    /** Each of the stack's groups that exists, deleted. */
    method DeleteStackGroups(stack: string, groups: seq<string>)
      modifies cluster
      ensures cluster.State() == DeleteGroups(old(cluster.State()), stack, groups)
    {
      var i := 0;
      while i < |groups|
        invariant 0 <= i <= |groups|
        invariant DeleteGroups(old(cluster.State()), stack, groups) == DeleteGroups(cluster.State(), stack, groups[i..])
      {
        assert groups[i..][1..] == groups[i + 1..];
        var name := Qualified(stack, groups[i]);
        if cluster.ExistsHaGroup(name) {
          cluster.DeleteHaGroup(name);
        }
        i := i + 1;
      }
    }

    /**
     * `stack_delete(stack)` with `resourceVmid` the vmid passed to
     * `delete_ha_resources` beside the filter `^<stack>-`.
     */
    method DeleteStack(stack: string, resourceVmid: Option<int>) returns (raised: Option<Error>)
      requires Valid()
      modifies this, cluster
      ensures Valid()
      ensures Applied(cluster.State(), expanded, files, raised) ==
        DeleteSpec(old(cluster.State()), old(expanded), old(files), stack, resourceVmid)
    {
      if stack !in Keys(expanded) {
        return Some(KeyError(stack));
      }
      var project := Desired(expanded, stack);
      var entries := ResourceEntries(cluster.vms, cluster.resources);
      if entries.Err? {
        return Some(entries.error);
      }
      var d := Proxmox.DeleteHaResources(entries.value, "^" + stack + "-", StackFilter(stack), resourceVmid);
      DeleteResources(d.deleted);
      if d.raised.Some? {
        return d.raised;
      }
      DeleteStackGroups(stack, Keys(project.haGroups));
      raised := DeleteStackInstances(stack, Keys(project.instances));
      if raised.Some? {
        return;
      }
      files := files - {(stack, StateFile)};
    }

    /** `stack_delete(stack)` as written: `delete_ha_resources` gets no vmid. */
    method StackDelete(stack: string) returns (raised: Option<Error>)
      requires Valid()
      modifies this, cluster
      ensures Valid()
      ensures Applied(cluster.State(), expanded, files, raised) ==
        DeleteSpec(old(cluster.State()), old(expanded), old(files), stack, None)
    {
      raised := DeleteStack(stack, None);
    }

    /** `stack_delete(stack)` with the vmid defaulting to -1, so that no comparison with None happens. */
    method StackDeleteGuarded(stack: string) returns (raised: Option<Error>)
      requires Valid()
      modifies this, cluster
      ensures Valid()
      ensures Applied(cluster.State(), expanded, files, raised) ==
        DeleteSpec(old(cluster.State()), old(expanded), old(files), stack, Some(-1))
    {
      raised := DeleteStack(stack, Some(-1));
    }
  }
}
