/**
 * The Proxmox cluster as the stack operations see it: HA groups, HA
 * resources and VMs, and the log of the client calls made so far. Each
 * client call the stack code makes is an effect on this state; the REST
 * requests behind them are abstract.
 */
module ClusterState {
  import opened Wrappers
  import opened Values
  import opened Text
  import Proxmox

  /** An HA resource: its sid, its group and its restart limits. */
  datatype HaResource = HaResource(sid: string, group: string, maxRelocate: Value, maxRestart: Value)

  /** A client call, with the arguments that reach the cluster. */
  datatype Call =
    | DeleteGroupResources(group: string)
    | DeleteGroup(group: string)
    | CreateGroup(request: Proxmox.HaGroupRequest)
    | UpdateGroup(group: string, nodes: Value, nofailback: Value, restricted: Value)
    | UpdateResource(sid: string, maxRelocate: Value, maxRestart: Value)
    | SetStatus(vmid: int, status: string)
    | WaitStatus(vmid: int, status: string)
    | DeleteResources(vmid: int)
    | DeleteResource(vmidText: string)
    | DeleteVm(vmid: int)
    | Clone(source: int, name: string, newid: int)
    | SetVms(vmid: int, vmname: string, settings: Proxmox.VmSettings)
    | Resize(vmid: int, size: Value, disk: Value)
    | SetTags(prefix: string, tags: string)
    | CreateResource(group: string, vmid: int, maxRelocate: Value, maxRestart: Value)

  /**
   * The cluster: HA groups by name, HA resources, VMs in listing order,
   * the id the next clone gets, and the calls made so far.
   */
  datatype World = World(groups: map<string, Proxmox.HaGroupRequest>, resources: seq<HaResource>,
                         vms: seq<Proxmox.Vm>, nextId: int, log: seq<Call>)

  // ---------------------------------------------------------------------
  // What the client lists
  // ---------------------------------------------------------------------

  /** `get_vms` lists only the VMs whose status is stopped or running. */
  predicate Visible(v: Proxmox.Vm) {
    v.status == "stopped" || v.status == "running"
  }

  /** The VMs `get_vms` lists, in order. */
  function Listed(vms: seq<Proxmox.Vm>): (r: seq<Proxmox.Vm>)
    ensures forall v :: v in r <==> v in vms && Visible(v)
    decreases |vms|
  {
    if vms == [] then []
    else
      var init := vms[..|vms| - 1];
      var last := vms[|vms| - 1];
      assert forall v :: v in vms <==> v in init || v == last;
      Listed(init) + (if Visible(last) then [last] else [])
  }

  /** The listed VMs whose name starts with `prefix` (the regex `^<prefix>`). */
  function ListedMatching(vms: seq<Proxmox.Vm>, prefix: string): (r: seq<Proxmox.Vm>)
    ensures forall v :: v in r <==> v in vms && Visible(v) && StartsWith(v.name, prefix)
    decreases |vms|
  {
    if vms == [] then []
    else
      var init := vms[..|vms| - 1];
      var last := vms[|vms| - 1];
      assert forall v :: v in vms <==> v in init || v == last;
      ListedMatching(init, prefix) + (if Visible(last) && StartsWith(last.name, prefix) then [last] else [])
  }

  /** `get_vm_by_id_or_name(vmname=name)`: the first listed VM of that name. */
  function Lookup(w: World, name: string): Option<Proxmox.Vm> {
    Proxmox.VmByIdOrName(Listed(w.vms), 0, name)
  }

  /** The first listed VM with that id. */
  function VmWithId(vms: seq<Proxmox.Vm>, id: int): (r: Option<Proxmox.Vm>)
    ensures r.Some? ==> r.value in vms && r.value.vmid == id
    ensures r.None? ==> forall v :: v in vms ==> v.vmid != id
    ensures r.Some? ==> exists i :: 0 <= i < |vms| && vms[i] == r.value && forall j :: 0 <= j < i ==> vms[j].vmid != id
    ensures forall i :: Proxmox.FirstWithId(vms, id, i) ==> r == Some(vms[i])
    decreases |vms|
  {
    if vms == [] then None
    else if vms[0].vmid == id then Some(vms[0])
    else
      var rest := VmWithId(vms[1..], id);
      assert forall i :: 0 < i && Proxmox.FirstWithId(vms, id, i) ==> Proxmox.FirstWithId(vms[1..], id, i - 1);
      assert rest.Some? ==> exists i :: 0 <= i < |vms| && vms[i] == rest.value && forall j :: 0 <= j < i ==> vms[j].vmid != id by {
        if rest.Some? {
          var k :| 0 <= k < |vms[1..]| && vms[1..][k] == rest.value && forall j :: 0 <= j < k ==> vms[1..][j].vmid != id;
          assert forall j :: 0 <= j < k + 1 ==> vms[j].vmid != id by {
            forall j | 0 <= j < k + 1 ensures vms[j].vmid != id {
              if j > 0 { assert vms[j] == vms[1..][j - 1]; }
            }
          }
        }
      }
      rest
  }

  // ---------------------------------------------------------------------
  // What the calls change
  // ---------------------------------------------------------------------

  /** The resources outside a group. */
  function WithoutGroup(resources: seq<HaResource>, group: string): (r: seq<HaResource>)
    ensures forall x :: x in r <==> x in resources && x.group != group
    decreases |resources|
  {
    if resources == [] then []
    else
      var init := resources[..|resources| - 1];
      var last := resources[|resources| - 1];
      assert forall x :: x in resources <==> x in init || x == last;
      WithoutGroup(init, group) + (if last.group != group then [last] else [])
  }

  /** The resources whose sid does not name the VM `vmidText`. */
  function WithoutSid(resources: seq<HaResource>, vmidText: string): (r: seq<HaResource>)
    ensures forall x :: x in r <==> x in resources && Proxmox.SidVmid(x.sid) != vmidText
    decreases |resources|
  {
    if resources == [] then []
    else
      var init := resources[..|resources| - 1];
      var last := resources[|resources| - 1];
      assert forall x :: x in resources <==> x in init || x == last;
      WithoutSid(init, vmidText) + (if Proxmox.SidVmid(last.sid) != vmidText then [last] else [])
  }

  /** The VMs other than the one with that id. */
  function WithoutVm(vms: seq<Proxmox.Vm>, vmid: int): (r: seq<Proxmox.Vm>)
    ensures forall v :: v in r <==> v in vms && v.vmid != vmid
    ensures |r| <= |vms|
    decreases |vms|
  {
    if vms == [] then []
    else
      var init := vms[..|vms| - 1];
      var last := vms[|vms| - 1];
      assert forall v :: v in vms <==> v in init || v == last;
      WithoutVm(init, vmid) + (if last.vmid != vmid then [last] else [])
  }

  /** Every listed VM with that id put in `status`; the others as they were. */
  function WithStatus(vms: seq<Proxmox.Vm>, vmid: int, status: string): (r: seq<Proxmox.Vm>)
    ensures |r| == |vms|
    ensures forall i :: 0 <= i < |vms| ==>
      r[i] == if vms[i].vmid == vmid && Visible(vms[i]) then vms[i].(status := status) else vms[i]
  {
    seq(|vms|, i requires 0 <= i < |vms| =>
      if vms[i].vmid == vmid && Visible(vms[i]) then vms[i].(status := status) else vms[i])
  }

  /** Every listed VM whose name starts with `prefix` given the tag string. */
  function WithTags(vms: seq<Proxmox.Vm>, prefix: string, tags: string): (r: seq<Proxmox.Vm>)
    ensures |r| == |vms|
    ensures forall i :: 0 <= i < |vms| ==>
      r[i] == if Visible(vms[i]) && StartsWith(vms[i].name, prefix) then vms[i].(tags := tags) else vms[i]
  {
    seq(|vms|, i requires 0 <= i < |vms| =>
      if Visible(vms[i]) && StartsWith(vms[i].name, prefix) then vms[i].(tags := tags) else vms[i])
  }

  /** The status a `set_vms_status` command leaves a VM in. */
  function Reached(command: string): string {
    if command == "stop" then "stopped" else if command == "start" then "running" else command
  }

  function AfterDeleteGroupResources(w: World, group: string): World {
    w.(resources := WithoutGroup(w.resources, group), log := w.log + [DeleteGroupResources(group)])
  }

  function AfterDeleteGroup(w: World, group: string): World {
    w.(groups := w.groups - {group}, log := w.log + [DeleteGroup(group)])
  }

  function AfterCreateGroup(w: World, request: Proxmox.HaGroupRequest): World {
    w.(groups := w.groups[request.group := request], log := w.log + [CreateGroup(request)])
  }

  function AfterSetStatus(w: World, vmid: int, command: string): World {
    w.(vms := WithStatus(w.vms, vmid, Reached(command)), log := w.log + [SetStatus(vmid, command)])
  }

  function AfterDeleteResources(w: World, vmid: int): World {
    w.(resources := WithoutSid(w.resources, IntToString(vmid)), log := w.log + [DeleteResources(vmid)])
  }

  function AfterDeleteResource(w: World, vmidText: string): World {
    w.(resources := WithoutSid(w.resources, vmidText), log := w.log + [DeleteResource(vmidText)])
  }

  function AfterDeleteVm(w: World, vmid: int): World {
    w.(vms := WithoutVm(w.vms, vmid), log := w.log + [DeleteVm(vmid)])
  }

  function AfterSetTags(w: World, prefix: string, tags: string): World {
    w.(vms := WithTags(w.vms, prefix, tags), log := w.log + [SetTags(prefix, tags)])
  }

  function AfterCreateResource(w: World, group: string, vmid: int, maxRelocate: Value, maxRestart: Value): World {
    w.(resources := w.resources + [HaResource(IntToString(vmid), group, maxRelocate, maxRestart)],
       log := w.log + [CreateResource(group, vmid, maxRelocate, maxRestart)])
  }

  /** A call that only reaches the cluster's configuration, which is not part of this model. */
  function AfterCall(w: World, call: Call): World {
    w.(log := w.log + [call])
  }

  /**
   * `clone_vm(vmid=source, name=name, duplicate=0)`: the source must be a
   * listed VM and stopped; the clone gets the next id, the source's node
   * and tags, and is stopped. A source that is not a number matches no VM.
   */
  function AfterClone(w: World, source: Value, name: string): (r: Outcome<World>)
    ensures r.Ok? ==> |r.value.vms| == |w.vms| + 1 && r.value.vms[..|w.vms|] == w.vms
    ensures r.Ok? ==> var v := r.value.vms[|w.vms|];
      v.vmid == w.nextId && v.name == name && v.status == "stopped" && r.value.nextId == w.nextId + 1
    ensures r.Err? <==>
      || !(source.Int? || source.Bool?)
      || VmWithId(Listed(w.vms), AsInt(source).value).None?
      || VmWithId(Listed(w.vms), AsInt(source).value).value.status != "stopped"
  {
    match AsInt(source)
    case Err(_) => Err(VmNotFound)
    case Ok(id) =>
      match VmWithId(Listed(w.vms), id)
      case None => Err(VmNotFound)
      case Some(src) =>
        if src.status != "stopped" then Err(VmNeedStop)
        else
          var clone := Proxmox.Vm(w.nextId, name, src.node, "stopped", src.tags, "N/A");
          Ok(w.(vms := w.vms + [clone], nextId := w.nextId + 1, log := w.log + [Clone(id, name, w.nextId)]))
  }

  // ---------------------------------------------------------------------
  // The cluster object
  // ---------------------------------------------------------------------

  /** The cluster behind the client: each call updates its state and logs itself. */
  class Cluster {
    var groups: map<string, Proxmox.HaGroupRequest>
    var resources: seq<HaResource>
    var vms: seq<Proxmox.Vm>
    var nextId: int
    var log: seq<Call>

    function State(): World
      reads this
    {
      World(groups, resources, vms, nextId, log)
    }

    constructor (w: World)
      ensures State() == w
    {
      groups := w.groups;
      resources := w.resources;
      vms := w.vms;
      nextId := w.nextId;
      log := w.log;
    }

    /** `exists_ha_group`. */
    function ExistsHaGroup(group: string): bool
      reads this
    {
      group in groups
    }

    /** `exists_vm`: a listed VM of that name. */
    function ExistsVm(name: string): bool
      reads this
    {
      Lookup(State(), name).Some?
    }

    /** `get_vm_by_id_or_name(vmname=name)`. */
    function VmByName(name: string): Option<Proxmox.Vm>
      reads this
    {
      Lookup(State(), name)
    }

    /** `delete_ha_resources_by_group_name`. */
    method DeleteGroupResources(group: string)
      modifies this
      ensures State() == AfterDeleteGroupResources(old(State()), group)
    {
      resources := WithoutGroup(resources, group);
      log := log + [Call.DeleteGroupResources(group)];
    }

    /** `delete_ha_group`. */
    method DeleteHaGroup(group: string)
      modifies this
      ensures State() == AfterDeleteGroup(old(State()), group)
    {
      groups := groups - {group};
      log := log + [DeleteGroup(group)];
    }

    /** `create_ha_group`. */
    method CreateHaGroup(request: Proxmox.HaGroupRequest)
      modifies this
      ensures State() == AfterCreateGroup(old(State()), request)
    {
      groups := groups[request.group := request];
      log := log + [CreateGroup(request)];
    }

    /** `set_vms_status(status=command, vmid=vmid)`. */
    method SetVmsStatus(vmid: int, command: string)
      modifies this
      ensures State() == AfterSetStatus(old(State()), vmid, command)
    {
      vms := WithStatus(vms, vmid, Reached(command));
      log := log + [SetStatus(vmid, command)];
    }

    /** `delete_ha_resources(vmid=vmid)`. */
    method DeleteHaResources(vmid: int)
      modifies this
      ensures State() == AfterDeleteResources(old(State()), vmid)
    {
      resources := WithoutSid(resources, IntToString(vmid));
      log := log + [Call.DeleteResources(vmid)];
    }

    /** `cluster.ha.resources.delete(vmid)` for one listed resource. */
    method DeleteHaResource(vmidText: string)
      modifies this
      ensures State() == AfterDeleteResource(old(State()), vmidText)
    {
      resources := WithoutSid(resources, vmidText);
      log := log + [DeleteResource(vmidText)];
    }

    /** `nodes(node).qemu(vmid).delete()`. */
    method DeleteQemu(vmid: int)
      modifies this
      ensures State() == AfterDeleteVm(old(State()), vmid)
    {
      vms := WithoutVm(vms, vmid);
      log := log + [DeleteVm(vmid)];
    }

    /** `set_tags(tags, filter_name="^<prefix>")`. */
    method SetVmTags(prefix: string, tags: string)
      modifies this
      ensures State() == AfterSetTags(old(State()), prefix, tags)
    {
      vms := WithTags(vms, prefix, tags);
      log := log + [SetTags(prefix, tags)];
    }

    /** `create_ha_resource(group, vmid, max_relocate, max_restart)`. */
    method CreateHaResource(group: string, vmid: int, maxRelocate: Value, maxRestart: Value)
      modifies this
      ensures State() == AfterCreateResource(old(State()), group, vmid, maxRelocate, maxRestart)
    {
      resources := resources + [HaResource(IntToString(vmid), group, maxRelocate, maxRestart)];
      log := log + [CreateResource(group, vmid, maxRelocate, maxRestart)];
    }

    /** A call whose effect on the cluster is not modelled: it is only logged. */
    method Send(call: Call)
      modifies this
      ensures State() == AfterCall(old(State()), call)
    {
      log := log + [call];
    }

    /** `clone_vm(vmid=source, name=name, duplicate=0)`. */
    method CloneVm(source: Value, name: string) returns (r: Outcome<()>)
      modifies this
      ensures match AfterClone(old(State()), source, name)
              case Ok(w) => r == Ok(()) && State() == w
              case Err(e) => r == Err(e) && State() == old(State())
    {
      var id := AsInt(source);
      if id.Err? {
        return Err(VmNotFound);
      }
      var src := VmWithId(Listed(vms), id.value);
      if src.None? {
        return Err(VmNotFound);
      }
      if src.value.status != "stopped" {
        return Err(VmNeedStop);
      }
      vms := vms + [Proxmox.Vm(nextId, name, src.value.node, "stopped", src.value.tags, "N/A")];
      log := log + [Clone(id.value, name, nextId)];
      nextId := nextId + 1;
      return Ok(());
    }
  }

  // ---------------------------------------------------------------------
  // Properties of the effects
  // ---------------------------------------------------------------------

  /** After a VM is stopped, every listed VM with its id is listed as stopped. */
  lemma StopLeavesStopped(w: World, vmid: int)
    ensures forall v :: v in Listed(AfterSetStatus(w, vmid, "stop").vms) && v.vmid == vmid ==> v.status == "stopped"
    ensures forall v :: v in Listed(w.vms) && v.vmid == vmid ==>
      v.(status := "stopped") in Listed(AfterSetStatus(w, vmid, "stop").vms)
  {
    var vms := AfterSetStatus(w, vmid, "stop").vms;
    forall v | v in Listed(vms) && v.vmid == vmid
      ensures v.status == "stopped"
    {
      var i :| 0 <= i < |vms| && vms[i] == v;
    }
    forall v | v in Listed(w.vms) && v.vmid == vmid
      ensures v.(status := "stopped") in Listed(vms)
    {
      var i :| 0 <= i < |w.vms| && w.vms[i] == v;
      assert vms[i] == v.(status := "stopped");
    }
  }
}
