# proxcli stacks, modelled in Dafny

proxcli is a command line client for a Proxmox VE cluster. Its "stack"
commands turn a YAML description of projects into virtual machines and
high-availability (HA) groups:

- the configuration is merged with a file of defaults;
- instances with an IP sequence are expanded into numbered copies;
- a saved state is compared with the desired configuration, which gives a plan;
- the plan is written to `~/.proxcli/<stack>.plan`;
- `stack apply` carries the plan out on the cluster and records the new state;
- `stack delete` tears the whole stack down.

This project models that core, together with the helpers of the cluster
client it calls.

- `Values`, `Dicts`, `Text`, `IpAddress` give the value types the program handles. `Dicts` models
  Python dictionaries, which keep insertion order and replace in place.
  `Text` models `str.split`, `str.strip`, `str.replace`, `int()`, `str()` and
  the f-string `name-index`. `IpAddress` models `ipaddress.ip_address` on
  IPv4 text. IPv6 text is a parameter.
- `StackConfig` models `merge_default` and `expand`. Expansion is a method
  with loops, proved equal to a recursive specification, with lemmas that
  each copy gets the next address and that the written `ipconfig` parses back.
- `StackDiff` models `stack_diff`. It classifies a stream of dictdiffer
  events into a plan, as a loop proved against a fold. The lemmas are about
  what each kind of event records, which events fail, and how the added and
  removed key lists are built.
- `Proxmox` models the cluster client helpers: `output`, `table`,
  `get_cluster_log`, `create_ha_group`, `delete_ha_resources`,
  `get_vm_by_id_or_name`, `resize_vms_disk`, `set_vms`, `get_tags`,
  `delete_vms`, `clone_vm` and `inventory`. Each one works on the data the
  REST API would return, and its result is the request it would send or the
  exception it would raise.
- `ClusterState` models the cluster as a value `World` and as a class
  `Cluster`. The value holds HA groups, HA resources, virtual machines, the
  next free id and a log of the calls made. Each method of the class performs
  one REST call.
- `StackApply` gives the specification functions of `stack_apply` and
  `stack_delete`. Each phase is a fold over the plan's lists. A `Run` carries
  the cluster, the expanded configuration, the last instance name that
  `cfg_instances` was bound to, and the exception that ended the run, if
  any. Lemmas state the effect of each phase and of the whole command.
- `Operations.StackOperations` is the object that runs the commands. It
  holds the expanded configuration, the files under `~/.proxcli` and the
  cluster. Its methods are loops that change the cluster call by call. Each
  is proved to leave exactly the state its `StackApply` function gives.

Errors are values. A Python exception becomes `Err(e)` or a `raised` result
that stops the command, and the calls made before it stay in the log.
`sys.exit(2)` is the error `SystemExit(2)`.

Several branches follow the code rather than its evident intention:

- The HA resource update of a changed group tests `"max_relocate" in
  resources`, a list of dictionaries, so it always sends `None` for both limits.
- `cfg_instances` is only bound when an instance is cloned. An added instance that
  already exists reuses the binding of the last clone, or raises
  `UnboundLocalError` when there was none.
- `stack_delete` is modelled both as written and with the `vmid` guard
  (see Findings).

The update of an instance as written reads the plan's `cipassword` and
`ciuser` entries, which the configuration never has. The model records this
(`WrittenUpdateSettings`) and uses the evident intention, the new `password`
and `user`, in the update phase (see Findings).

## Model

| member | source | states |
|---|---|---|
| Values.Field | stack_operations.py:452-461 | reading a key of a configuration mapping succeeds exactly when the key is present and raises `KeyError(key)` otherwise |
| Values.AsInt | stack_config.py:125 | the count given to `range()` is accepted when it is an integer or a boolean (as 0/1) and raises for every other value |
| Dicts.PutGet | stack_config.py:137 | after `d[k] = v` the key `k` reads `v` and every other key reads what it did before |
| Dicts.PutKeys | stack_config.py:137 | assigning a new key appends it to the key order, and assigning an existing key leaves the order unchanged |
| Text.JoinSplit | proxmoxlib.py:929 | joining the pieces of `s.split(c)` with `c` gives `s` back |
| Text.SplitJoin | proxmoxlib.py:929 | splitting a join of pieces free of `c` on `c` gives the pieces back |
| Text.SplitPiecesAvoidSeparator | stack_config.py:107 | no piece of `s.split(c)` contains `c` |
| Text.SplitPiecesAreSlices | stack_config.py:107-109 | every piece of `s.split(c)` is a contiguous slice of `s` |
| Text.StripShape | stack_config.py:108-109 | `strip()` removes a whitespace prefix and a whitespace suffix, and leaves no whitespace at either end |
| Text.StripTwice | stack_config.py:108-109 | stripping twice is the same as stripping once |
| Text.ReplaceChar | proxmoxlib.py:929 | `replace(a, b)` on one character changes exactly the positions that held `a` and nothing else |
| Text.ParseNatToString | stack_config.py:130 | `int(str(n))` is `n` for every natural number |
| Text.NatToStringParse | stack_config.py:123 | a canonical digit string is `str()` of the number `int()` reads from it |
| Text.ParseIntToString | stack_config.py:123 | `int(str(i))` is `i` for every integer, negative ones included |
| Text.CopyNamesDiffer | stack_config.py:131 | copies with different indexes get different `name-index` names |
| Text.CopyNames | proxmoxlib.py:1029-1031 | `range(count)` gives `count` names `name-0` … `name-(count-1)`, and none when `count <= 0` |
| IpAddress.ParseOctet | stack_config.py:120 | an accepted octet is below 256 and written canonically |
| IpAddress.ParseIPv4 | stack_config.py:120 | a parsed dotted quad is a 32-bit value |
| IpAddress.Octets | stack_config.py:128 | every 32-bit value has four octets that recompose to it |
| IpAddress.ParseFormatIPv4 | stack_config.py:128-130 | `ip_address(str(ip_address(n)))` is `n` for every IPv4 value |
| IpAddress.FormatParseIPv4 | stack_config.py:120-130 | text that parses as IPv4 is the canonical formatting of its value |
| IpAddress.AddressText | stack_config.py:128 | `str(ip_address(n))` succeeds exactly below 2^128, in the IPv4 form below 2^32 and in the IPv6 form above it |
| IpAddress.ParseAddressText | stack_config.py:110-128 | an address formatted from a value parses back to the same value |
| StackConfig.MergeDefault | stack_config.py:69-88 | merging keeps every project, instance and group name in order; each instance is the template overridden by its own keys; each group is the group template overridden by its keys, and an empty or missing group body gives the template itself |
| StackConfig.ParseIpconfig | stack_config.py:106-124 | an accepted `ipconfig` is an IPv6 plan exactly when the text contains `ip6`, and its base address is below 2^128 |
| StackConfig.ParseIpconfigRejects | stack_config.py:107-119 | the unpacking fails when the text does not have exactly one comma, or, for IPv4, when the address part does not have exactly one slash |
| StackConfig.ParsedGateway | stack_config.py:109-118 | the gateway is the stripped text after the last `=` of the second comma piece |
| StackConfig.Copy | stack_config.py:104-136 | a copy is the instance without `ipsequence`, with its own `ipconfig` and `count` 1, and every other key unchanged |
| StackConfig.Expand | stack_config.py:90-143 | the loop over projects and instances computes exactly the recursive expansion, including the first exception it raises |
| StackConfig.ExpandProjectInstances | stack_config.py:99-139 | the inner loop over one project's instances computes exactly the expansion of those instances |
| StackConfig.WriteCopies | stack_config.py:125-137 | the loop over `range(count)` writes exactly the copies the specification writes |
| StackConfig.PutCopiesKeys | stack_config.py:125-137 | after the copies are written, the keys are the earlier ones plus `name-i` for each index in the range |
| StackConfig.PutCopiesGet | stack_config.py:126-137 | copy `name-i` holds the instance with the `ipconfig` of base address plus `i` |
| StackConfig.PutCopiesUntouched | stack_config.py:137 | writing copies leaves every other key as it was |
| StackConfig.ExpandInstancesKeys | stack_config.py:99-139 | the expanded instances are exactly the names each instance writes: itself, or its numbered copies |
| StackConfig.ExpandKeepsPlain | stack_config.py:138-139 | an instance without a true `ipsequence` is passed through unchanged unless a later instance overwrites its name |
| StackConfig.ExpandMakesCopy | stack_config.py:125-137 | a sequenced instance yields copy `name-i` with address base plus `i` for each `i` below `count` |
| StackConfig.ExpandInstancesFails | stack_config.py:106-124 | a sequenced instance whose `ipconfig` or `count` cannot be read makes the whole expansion raise |
| StackConfig.ExpandProjectsShape | stack_config.py:92-142 | every project appears once, in order, with its HA groups unchanged and its instances expanded |
| StackConfig.ExpandShape | stack_config.py:90-143 | a successful expansion keeps the project names and groups and expands each project's instances |
| StackConfig.ExpandRejectsMalformedIpconfig | stack_config.py:106-124 | a sequenced instance with a malformed `ipconfig` makes `expand` raise |
| StackConfig.V4TextParses | stack_config.py:130-135 | the IPv4 `ipconfig` written for a copy parses back to the same address, mask and gateway |
| StackConfig.V6TextParses | stack_config.py:128-135 | the IPv6 `ipconfig` written for a copy parses back to the same address and gateway |
| StackConfig.CopyIpconfigV4 | stack_config.py:130-135 | an IPv4 copy's setting is `ip=<base+i>/<mask>,gw=<gateway>` |
| StackConfig.CopyIpconfigV6 | stack_config.py:128-135 | an IPv6 copy's setting fails exactly when base plus `i` passes 2^128, and is otherwise `ip6=<address>,gw6=<gateway>` |
| StackDiff.SplitThree | stack_operations.py:71-147 | unpacking a dotted path into three names succeeds exactly on a dotted path with three pieces, and gives the middle and last piece |
| StackDiff.UnpackFour | stack_operations.py:111 | unpacking a path into four succeeds on a four-element key list, or on a four-character string, and names the instance by the second element |
| StackDiff.SetDefaultInstance | stack_operations.py:74-79 | `setdefault` leaves the instance present in the updates |
| StackDiff.StackDiff | stack_operations.py:41-177 | the loop over the events computes exactly the fold of the per-event classification, including the first exception |
| StackDiff.ClassifyAdd | stack_operations.py:62-94 | an `add` event updates the plan exactly as the classification of that event does |
| StackDiff.ClassifyChange | stack_operations.py:95-142 | a `change` event updates the plan exactly as the classification of that event does |
| StackDiff.ClassifyRemove | stack_operations.py:143-173 | a `remove` event updates the plan exactly as the classification of that event does |
| StackDiff.AppendNewTags | stack_operations.py:81-87 | the tag loop appends exactly the tags not already listed |
| StackDiff.AppendNewContents | stack_operations.py:81-87 | appending new tags keeps the old list as a prefix, contains every added tag and nothing from elsewhere |
| StackDiff.AppendNewDistinct | stack_operations.py:81-87 | appending new tags to a list without repeats gives a list without repeats |
| StackDiff.AppendNewPresent | stack_operations.py:81-87 | appending tags that are all present changes nothing |
| StackDiff.AppendNewIdempotent | stack_operations.py:81-87 | appending the same tags twice is the same as appending them once |
| StackDiff.StepRecordsInstanceChange | stack_operations.py:127-142 | a change of `instances.<name>.<prop>` records the old and new value under that instance and property |
| StackDiff.StepRecordsGroupChange | stack_operations.py:96-108 | a change of `ha_groups.<group>.<prop>` records the old and new value under that group and property, and leaves instances alone |
| StackDiff.StepAddsTags | stack_operations.py:69-87 | an `add` under `instances.<name>.tags` appends the new tags to that instance's added tags |
| StackDiff.StepChangesTag | stack_operations.py:110-125 | a change of one tag records the old value as removed and the new value as added |
| StackDiff.StepRemovesTags | stack_operations.py:143-160 | a `remove` under a tags path appends the removed tags to that instance's removed tags |
| StackDiff.ChangeUnderTaggedNameFails | stack_operations.py:110-111 | a dotted change path that mentions both `instances` and `tags` raises `ValueError`, because a string is unpacked into four |
| StackDiff.ListedGroupChangeFails | stack_operations.py:96-97 | a group change whose path is a key list raises `AttributeError`, because a list has no `split` |
| StackDiff.StepDropped | stack_operations.py:61-173 | an event no branch handles leaves the plan unchanged |
| StackDiff.PropertyAddIsDropped | stack_operations.py:62-173 | adding or removing a key below an instance or group, other than tags, records nothing |
| StackDiff.ClassifyFromAppend | stack_operations.py:61 | classifying two event streams one after the other is classifying their concatenation |
| StackDiff.ClassifySkipsDropped | stack_operations.py:61-173 | removing an ignored event from the stream gives the same plan |
| StackDiff.ClassifyKeyList | stack_operations.py:61-173 | each added or removed key list of the plan is exactly the keys of the matching events, in stream order |
| StackDiff.ClassifyKeyLevel | stack_operations.py:41-177 | a stream without property or tag edits gives a plan of added and removed names only, and no events give the empty plan |
| StackDiff.KeyLevelFrom | stack_operations.py:61-173 | events that do not edit leave the updated sections untouched and never fail |
| StackDiff.ClassifyTagsDistinct | stack_operations.py:81-87 | without single-tag changes, every instance's added tags stay free of repeats |
| Proxmox.Output | proxmoxlib.py:109-139 | the `internal` format returns the data unchanged, and every other format prints and returns nothing |
| Proxmox.OutputRawList | proxmoxlib.py:121-122 | a raw list passes through `internal` output element for element |
| Proxmox.Matching | proxmoxlib.py:162-163 | the colour words matched are exactly the words that occur in the cell text |
| Proxmox.TableRows | proxmoxlib.py:146-174 | the table has one row per element and one cell per header; a missing key gives a blank cell; a cell whose text contains exactly one colour word is coloured with that word's colour |
| Proxmox.CellMeaning | proxmoxlib.py:160-171 | a cell is blank exactly when its text is empty, and is coloured exactly when one colour word matches |
| Proxmox.ColoredCell | proxmoxlib.py:163-166 | a coloured cell's colour belongs to the one word that occurs in its text |
| Proxmox.SeverityName | proxmoxlib.py:274-289 | a priority names a severity exactly when it is between 0 and 7, and an unknown priority raises |
| Proxmox.ListArgument | proxmoxlib.py:287-288 | a comma list argument becomes its stripped comma pieces, at least one |
| Proxmox.FilterLogsMeaning | proxmoxlib.py:289-297 | filtering succeeds exactly when every priority is known, and then keeps exactly the entries whose severity and node are listed, each with its severity name |
| Proxmox.FilterLogsFailsFrom | proxmoxlib.py:289-291 | once an entry with an unknown priority is reached, the filter raises whatever follows |
| Proxmox.GetClusterLog | proxmoxlib.py:260-307 | the loop keeps what the filter keeps, returns nothing when nothing is kept, and otherwise returns the output of the kept entries |
| Proxmox.EmptyNodeArgument | proxmoxlib.py:287-297 | an empty node list gives `[""]`, so the "no nodes" branch is never taken |
| Proxmox.FlagBit | proxmoxlib.py:334-335 | a flag becomes 0 exactly when it is `False`, and 1 for any other value |
| Proxmox.CreateHaGroup | proxmoxlib.py:318-345 | the request carries the group name and nodes unchanged, with `nofailback` and `restricted` as 0/1 bits that are 0 exactly for `False` |
| Proxmox.DeleteByFilterAlwaysRaises | proxmoxlib.py:428-443 | without a `vmid` the call always raises, and after a clean filtered deletion the exception is the `TypeError` of `None > 0` |
| Proxmox.FilterDeletionsRaise | proxmoxlib.py:435-437 | the filtered deletion completes exactly when every matching resource has a readable vmid |
| Proxmox.FilterDeletionsDeleted | proxmoxlib.py:430-440 | a completed filtered deletion removes exactly the vmids of the matching resources |
| Proxmox.DeleteHaResourcesGuarded | proxmoxlib.py:428-443 | the guarded deletion agrees with the original whenever a `vmid` is given |
| Proxmox.GuardedFilterDeletion | proxmoxlib.py:430-440 | with a filter and no `vmid`, the guarded deletion does the filtered deletions only |
| Proxmox.VmByIdOrNameMeaning | proxmoxlib.py:682-693 | the lookup fails exactly when no machine matches the id or name, and otherwise returns the first one that matches |
| Proxmox.PositiveArg | proxmoxlib.py:748-755 | an argument is sent when it is a positive integer or `True`, and comparing any other truthy value with 0 raises |
| Proxmox.FilledArg | proxmoxlib.py:756-767 | a text argument is sent when it is non-empty, and `len()` of a truthy number raises |
| Proxmox.Quote | proxmoxlib.py:767 | percent-encoding leaves only unreserved characters and `%` |
| Proxmox.QuoteUnreserved | proxmoxlib.py:767 | text made only of unreserved characters is encoded unchanged |
| Proxmox.SshKeyArg | proxmoxlib.py:766-767 | a non-empty key is sent stripped and percent-encoded, and an empty key is not sent |
| Proxmox.SetVmsPayload | proxmoxlib.py:746-767 | the payload raises exactly when some argument test raises; it holds exactly the arguments whose test passes, with their values, plus `sshkeys` when a key is given |
| Proxmox.KeptArguments | proxmoxlib.py:746-765 | the argument loop keeps exactly the arguments whose test passes and raises exactly when one test raises |
| Proxmox.Containing | proxmoxlib.py:719 | the kept entries are exactly the entries that contain the word, and the first entry that contains it comes first |
| Proxmox.ContainingConcat | proxmoxlib.py:719 | the filter keeps the order of the entries: filtering a concatenation concatenates the filtered parts |
| Proxmox.BootDisk | proxmoxlib.py:716-719 | the boot disk is the text after the first `=` of the first boot entry containing `order`; it raises exactly when no entry contains `order` or that entry has no `=` |
| Proxmox.BootDiskOfOrder | proxmoxlib.py:718-719 | `order=<disk>;…` yields `<disk>` |
| Proxmox.ResizeVmsDisk | proxmoxlib.py:706-722 | an unknown machine or an empty configuration raises; otherwise the resize succeeds exactly when the given disk is a string, or, with no disk, the configuration's boot string has a boot disk; it goes to the machine's node and id with the given size, on the given disk or else the boot disk |
| Proxmox.GetTagsMeaning | proxmoxlib.py:925-933 | the listed tags are exactly the comma or semicolon pieces of the non-empty tag strings of the machines |
| Proxmox.TagTokensClean | proxmoxlib.py:929-930 | no listed tag contains a separator |
| Proxmox.SplitEitherWay | proxmoxlib.py:929 | splitting after turning commas into semicolons gives the same pieces as the other way round |
| Proxmox.TagTokensOfJoined | proxmoxlib.py:929-930 | tags joined with commas are read back as the same tags |
| Proxmox.StoppedIdsMeaning | proxmoxlib.py:959-963 | the machines deleted by a filter are exactly the stopped ones |
| Proxmox.DeletedVms | proxmoxlib.py:935-971 | with a positive `vmid`, an unknown machine raises not-found, a running one raises need-stop and a stopped one is deleted; without one, an empty selection raises not-found and otherwise every stopped machine is deleted |
| Proxmox.DeleteVms | proxmoxlib.py:935-971 | the deletion loop deletes exactly what `DeletedVms` gives |
| Proxmox.RangeArg | proxmoxlib.py:1028 | `range()` accepts integers and booleans only |
| Proxmox.CloneVm | proxmoxlib.py:995-1051 | an unknown source raises not-found and a first match that is not stopped need-stop; with a stopped first match the clone succeeds exactly when `duplicate` is falsy or a number, giving one clone with the given name or `duplicate` clones named `name-0` onward |
| Proxmox.LookupByIdFindsFirst | proxmoxlib.py:682-693 | the lookup by id returns the first machine with that id |
| Proxmox.CloneNamesDistinct | proxmoxlib.py:1028-1031 | duplicate clones all get different names |
| Proxmox.Selected | proxmoxlib.py:1074-1088 | the inventory considers exactly the machines whose name matches the filter, or all of them without a filter |
| Proxmox.BuildInventory | proxmoxlib.py:1059-1135 | the inventory loop builds exactly the inventory that the specification gives for the selected machines |
| Proxmox.AddTagged | proxmoxlib.py:1115-1126 | the tag loop adds the host under each of its tags |
| Proxmox.AddToChildrenMeaning | proxmoxlib.py:1115-1126 | a host is under a tag exactly when it was there before or the tag is one of its tags |
| Proxmox.AddToChildrenValue | proxmoxlib.py:1124-1126 | adding a machine under its tags sets its address under each of them and keeps every other entry |
| Proxmox.InventoryHostValue | proxmoxlib.py:1103-1105 | a host's address is that of the last addressed machine of that name, later machines overwriting earlier ones |
| Proxmox.InventoryChildValue | proxmoxlib.py:1115-1126 | a host's address under a tag is that of the last addressed machine of that name carrying the tag and no excluded tag |
| Proxmox.InventoryMeaning | proxmoxlib.py:1090-1126 | an inventory exists exactly when some machine has an address; its hosts are exactly those machines, and a host is under a tag exactly when it carries the tag and no excluded tag |
| Proxmox.DefaultExcludeSkipsUntagged | proxmoxlib.py:1107-1114 | with the default exclusion, an untagged machine is put under no group, because `""` is in both split lists |
| ClusterState.Listed | proxmoxlib.py:802-872 | the machine listing holds exactly the machines whose status is `stopped` or `running` |
| ClusterState.ListedMatching | proxmoxlib.py:858-866 | filtering the listing by a name prefix keeps exactly the listed machines whose name starts with it |
| ClusterState.VmWithId | proxmoxlib.py:684-693 | the lookup by id returns the first listed machine with that id, and fails exactly when no machine has it |
| ClusterState.WithoutGroup | stack_operations.py:435-437 | removing a group's resources keeps exactly the resources of other groups |
| ClusterState.WithoutSid | proxmoxlib.py:441-443 | deleting a resource by vmid keeps exactly the resources of other machines |
| ClusterState.WithoutVm | proxmoxlib.py:955-956 | deleting a machine keeps exactly the other machines |
| ClusterState.WithStatus | proxmoxlib.py:973-993 | a status command changes the status of the listed machine with that id and nothing else |
| ClusterState.WithTags | proxmoxlib.py:917-923 | `set_tags` replaces the tags of exactly the listed machines whose name matches the prefix |
| ClusterState.AfterClone | proxmoxlib.py:995-1051 | a successful clone appends one stopped machine with the next free id and the given name, and advances the next id |
| ClusterState.StopLeavesStopped | stack_operations.py:519-526 | after a stop and a wait, the machine with that id is stopped |
| ClusterState.Cluster.constructor | proxmoxlib.py:29-33 | a client starts from the given cluster state |
| ClusterState.Cluster.DeleteGroupResources | stack_operations.py:435-437 | the resources of the group are removed and the call logged |
| ClusterState.Cluster.DeleteHaGroup | proxmoxlib.py:346-352 | the group is removed and the call logged |
| ClusterState.Cluster.CreateHaGroup | proxmoxlib.py:336-345 | the group request is posted and the group exists afterwards |
| ClusterState.Cluster.SetVmsStatus | proxmoxlib.py:973-993 | the status command reaches the machine with that id |
| ClusterState.Cluster.DeleteHaResources | proxmoxlib.py:441-443 | the resources of the machine are deleted |
| ClusterState.Cluster.DeleteHaResource | proxmoxlib.py:437-440 | the resource with that vmid text is deleted |
| ClusterState.Cluster.DeleteQemu | proxmoxlib.py:955-956 | the machine is deleted |
| ClusterState.Cluster.SetVmTags | proxmoxlib.py:917-923 | the tags of the matching machines are replaced |
| ClusterState.Cluster.CreateHaResource | proxmoxlib.py:411-420 | the machine becomes a resource of the group with the given limits |
| ClusterState.Cluster.CloneVm | proxmoxlib.py:1021-1036 | the clone is made, or its exception is returned and the cluster is unchanged |
| StackApply.KindOf | stack_operations.py:386-389 | `state` selects the state file and every other type selects the plan file |
| StackApply.Load | stack_operations.py:377-405 | loading gives the stored document exactly when the file exists, and nothing otherwise |
| StackApply.StoreState | stack_operations.py:759-773 | writing the state raises `KeyError` exactly when the stack is not in the expanded configuration |
| StackApply.PlanRoundTrip | stack_operations.py:744-757 | a written plan is loaded back unchanged, and no other file changes |
| StackApply.StateRoundTrip | stack_operations.py:759-773 | the written state is the stack's expanded configuration, loaded back unchanged, and no other file changes |
| StackApply.GroupRequest | stack_operations.py:452-461 | the group request needs `nodes`, `nofailback` and `restricted`, raises `KeyError` without them, and carries the group's name and nodes |
| StackApply.GroupSids | stack_operations.py:483-487 | the resources updated are exactly those of the group |
| StackApply.ReadFile | stack_operations.py:578-585 | reading a key file succeeds exactly when it exists |
| StackApply.CloneSource | stack_operations.py:557-567 | the clone reads `clone`, `full_clone`, `disk_storage`, `target` and `nodes`, and raises unless all are present |
| StackApply.JoinValue | stack_operations.py:609 | `";".join` of a tag list joins it; a string is joined character by character; anything else raises |
| StackApply.RemoveFirst | stack_operations.py:662-663 | `list.remove` takes out the first occurrence, keeping everything before and after it, and leaves a list without the value unchanged |
| StackApply.CurrentTags | stack_operations.py:653-654 | the current tags are read as strings |
| StackApply.JoinTags | stack_operations.py:671-673 | joining the tag list succeeds exactly when every tag is a string |
| StackApply.UpdatedKey | stack_operations.py:676-683 | without an `sshkey` change no key file is read |
| StackApply.ResourceEntries | proxmoxlib.py:354-377 | listing the HA resources gives one entry per resource, each with its `sid` |
| StackApply.RemoveGroupsEffect | stack_operations.py:428-440 | removing groups deletes exactly the stack's named groups and logs one resource deletion and one group deletion per group |
| StackApply.AddGroupsEffect | stack_operations.py:442-462 | adding groups creates only missing groups and leaves machines, resources and existing groups unchanged |
| StackApply.GroupAddedEffect | stack_operations.py:452-461 | one group is created only when it does not exist |
| StackApply.UpdateResourcesEffect | stack_operations.py:487-503 | each resource of the group is updated with no limits, because the membership test is on the resource list |
| StackApply.GroupUpdatedEffect | stack_operations.py:468-503 | a group update changes nothing but the call log, and only appends update calls to it |
| StackApply.UpdateGroupsEffect | stack_operations.py:463-503 | updating all changed groups only appends update calls |
| StackApply.AbsentInstanceSkipped | stack_operations.py:538-544 | removing an instance that does not exist does nothing |
| StackApply.RemovedInstanceDeleted | stack_operations.py:512-537 | removing an existing instance stops it, waits, deletes its HA resources and deletes the machine, in that order |
| StackApply.VmTornDown | stack_operations.py:519-537 | stopping, deleting resources and deleting a machine leaves no machine and no resource with that id |
| StackApply.StoppedVmDeletable | stack_operations.py:535-537 | the machine stopped before deletion passes the need-stop check |
| StackApply.DeletedStoppedVm | proxmoxlib.py:943-956 | deleting a stopped machine by id deletes exactly that id |
| StackApply.ExistingInstanceUnbound | stack_operations.py:553-573 | an existing instance added before any clone raises `UnboundLocalError` for `cfg_instances` |
| StackApply.ExistingInstanceWritesBound | stack_operations.py:570-626 | an existing instance added after a clone writes its vmid into the last cloned instance's configuration and provisions with that configuration |
| StackApply.ProvisionCalls | stack_operations.py:578-626 | a provisioned instance gets its settings, disk resize, tags and HA resource, in that order |
| StackApply.ConfigureCalls | stack_operations.py:587-626 | configuring an instance sends the settings, resize, tags and HA resource calls in that order |
| StackApply.CloneFound | stack_operations.py:559-572 | the machine cloned under a name is then found under that name with the id the clone took |
| StackApply.ClonedEffect | stack_operations.py:553-568 | a missing instance is cloned once, under its stack name, with the next free id, and binds `cfg_instances` to it |
| StackApply.ClonedInstanceBound | stack_operations.py:553-573 | after a clone the instance's configuration records the new vmid and no other instance changes |
| StackApply.ClonedInstanceConfigured | stack_operations.py:553-626 | a missing instance is cloned and then configured with its own settings |
| StackApply.ConfiguredBound | stack_operations.py:570-626 | configuring writes the vmid into the bound instance's configuration |
| StackApply.RemoveEachCounts | stack_operations.py:661-663 | removing tags takes away one occurrence of each removed tag that is present |
| StackApply.RemoveEachSubseq | stack_operations.py:661-663 | removing tags keeps the remaining tags in their order |
| StackApply.RemoveEachSurvivors | stack_operations.py:661-663 | removing the tags in turn drops, for each tag, its first copies, as many as it is removed, and keeps the other copies in order |
| StackApply.TagsAfterMeaning | stack_operations.py:653-674 | the new tags are the current tags less the first copies of each removed tag, in order, followed by the added tags that are missing |
| StackApply.TagsAfterDistinct | stack_operations.py:653-666 | tags without repeats stay without repeats |
| StackApply.TagsJoinable | stack_operations.py:671-673 | the tags can be joined exactly when every added tag is a string |
| StackApply.ReconfiguredSucceeds | stack_operations.py:636-731 | an update completes exactly when its added tags are strings, its key file can be read and its settings are accepted |
| StackApply.ReconfiguredCalls | stack_operations.py:644-651 | an update starts by stopping the machine and waiting for it to stop |
| StackApply.RetaggedDone | stack_operations.py:671-731 | a completed update sets the tags, sends the settings if any changed, resizes if the size changed, and starts the machine |
| StackApply.SettledLog | stack_operations.py:684-716 | the settings are sent exactly when a property other than tags and disk size changed |
| StackApply.RestartedLog | stack_operations.py:717-731 | the disk is resized only when its size changed, and the machine is started last |
| StackApply.DeleteAllEffect | stack_operations.py:818-820 | deleting machines removes exactly those ids |
| StackApply.DeleteResourceTextsEffect | proxmoxlib.py:430-440 | deleting resources by vmid text removes exactly those resources |
| StackApply.DeleteGroupsEffect | stack_operations.py:791-798 | deleting the stack's groups removes exactly the existing named groups |
| StackApply.InstanceDeletedGone | stack_operations.py:799-820 | deleting an existing instance stops it if it is running and leaves no machine with its id |
| StackApply.MatchingVmDeleted | proxmoxlib.py:935-971 | a stopped machine that matches the name filter is deleted |
| StackApply.PreparedVmMatches | stack_operations.py:806-820 | the stopped instance matches the name filter used to delete it |
| StackApply.DeleteInstancesKeeps | stack_operations.py:799-820 | deleting instances leaves groups and resources unchanged |
| StackApply.ApplyPhasesKeys | stack_operations.py:428-731 | the phases never add or remove stacks from the expanded configuration |
| StackApply.ApplyOutcome | stack_operations.py:407-742 | without a plan the command exits with 2; an unknown stack raises `KeyError`; a failure leaves the files as they were; success writes the desired state and removes the plan |
| StackApply.DeleteAsWrittenRaises | stack_operations.py:787-790 | the delete as written always raises before touching groups or machines, with `TypeError` once the filtered deletions succeed |
| StackApply.GuardedDeleteClears | stack_operations.py:775-823 | the corrected delete removes the stack's groups, its resources and its state file |
| StackApply.PasswordChangeNotSent | stack_operations.py:709-714 | as written, a password change makes the update send settings, but without the new password |
| StackApply.PasswordChangeExample | stack_operations.py:709-714 | as written, changing `password` from `old` to `new` sends a settings update with no password |
| StackApply.IntendedSettingsCarryChanges | stack_operations.py:700-715 | the settings the update sends carry the new value of each changed core count, memory, password, user and ipconfig, and None for each unchanged one |
| Operations.StackOperations.constructor | stack_operations.py:34-39 | the object holds the expanded configuration, the files and the cluster |
| Operations.StackOperations.LoadStackData | stack_operations.py:377-405 | the data is returned exactly when the file exists |
| Operations.StackOperations.WritePlan | stack_operations.py:744-757 | the plan file of the stack is replaced and nothing else changes |
| Operations.StackOperations.WriteState | stack_operations.py:759-773 | the state file holds the stack's expanded configuration, or `KeyError` is raised and nothing changes |
| Operations.StackOperations.RemoveStackGroups | stack_operations.py:428-440 | the loop leaves the cluster as the group removal phase describes |
| Operations.StackOperations.AddGroup | stack_operations.py:442-462 | one group is added as its specification describes |
| Operations.StackOperations.AddStackGroups | stack_operations.py:442-462 | the loop leaves the cluster as the group addition phase describes |
| Operations.StackOperations.UpdateGroupResources | stack_operations.py:487-503 | each resource of the group is updated in turn |
| Operations.StackOperations.UpdateStackGroups | stack_operations.py:463-503 | the loop leaves the cluster as the group update phase describes |
| Operations.StackOperations.DeleteMatchingVms | proxmoxlib.py:935-971 | the deletion deletes what `DeletedVms` selects, or raises its exception |
| Operations.StackOperations.StopAndWait | stack_operations.py:519-526 | the machine is stopped and waited for |
| Operations.StackOperations.RemoveInstance | stack_operations.py:505-544 | one instance is removed as its specification describes |
| Operations.StackOperations.RemoveStackInstances | stack_operations.py:505-544 | the loop leaves the cluster as the instance removal phase describes |
| Operations.StackOperations.SetVms | proxmoxlib.py:724-768 | the settings are sent, or their exception raised |
| Operations.StackOperations.ConfigureVm | stack_operations.py:587-626 | the settings, resize, tags and HA resource are sent as specified |
| Operations.StackOperations.ProvisionVm | stack_operations.py:578-626 | the key file is read and the machine configured as specified |
| Operations.StackOperations.CloneInstance | stack_operations.py:553-568 | a missing instance is cloned and binds `cfg_instances` |
| Operations.StackOperations.ConfigureInstance | stack_operations.py:570-626 | the instance is provisioned with the bound configuration |
| Operations.StackOperations.AddInstance | stack_operations.py:546-626 | one instance is added as its specification describes |
| Operations.StackOperations.AddStackInstances | stack_operations.py:546-626 | the loop leaves the cluster and the configuration as the instance addition phase describes |
| Operations.StackOperations.RemoveTags | stack_operations.py:661-663 | the loop removes the tags as `RemoveEach` does |
| Operations.StackOperations.AppendTags | stack_operations.py:664-666 | the loop appends the tags as `AppendNew` does |
| Operations.StackOperations.ApplyTagDelta | stack_operations.py:653-666 | the tags after the update are `TagsAfter` of the current tags |
| Operations.StackOperations.Restart | stack_operations.py:717-731 | the disk is resized if needed and the machine started |
| Operations.StackOperations.Resettle | stack_operations.py:676-731 | the settings, resize and start are done as specified |
| Operations.StackOperations.UpdateInstance | stack_operations.py:628-731 | one instance is updated as its specification describes |
| Operations.StackOperations.UpdateStackInstances | stack_operations.py:628-731 | the loop leaves the cluster as the instance update phase describes |
| Operations.StackOperations.Apply | stack_operations.py:407-742 | the command leaves the cluster, the configuration and the files exactly as `ApplySpec` describes |
| Operations.StackOperations.DeleteInstance | stack_operations.py:799-820 | one instance is deleted as its specification describes |
| Operations.StackOperations.DeleteStackInstances | stack_operations.py:799-820 | the loop deletes the stack's instances as specified |
| Operations.StackOperations.DeleteResources | proxmoxlib.py:430-440 | the resources are deleted one by one |
| Operations.StackOperations.DeleteStackGroups | stack_operations.py:791-798 | the loop deletes the stack's existing groups |
| Operations.StackOperations.DeleteStack | stack_operations.py:775-823 | the command leaves the cluster and files as `DeleteSpec` describes |
| Operations.StackOperations.StackDelete | stack_operations.py:775-823 | the delete as written, without a `vmid` |
| Operations.StackOperations.StackDeleteGuarded | stack_operations.py:775-823 | the corrected delete, which passes `vmid=-1` |

## Left out

- Reading YAML and JSON, printing, colouring and prompting are not modelled. Files are a map from stack and kind to a document.
- The REST client, `task_block` and `vms_wait_for_status` are not modelled as I/O. Each call is one step on the `World` value and one entry in its call log, and waits complete at once.
- Regular expression filters are a parameter `matches`. The stack commands only use `^<stack>-` prefixes, which are modelled as prefix tests.
- IPv6 text is a parameter `V6Codec` that formats and parses values between 2^32 and 2^128. IPv4 text is modelled fully.
- Exceptions raised inside `set_vms` and `resize_vms_disk` are named by kind only. For example, a value that cannot be compared becomes `TypeError("set_vms argument")`.
- Proxmox.ResizeVmsDisk: takes the machine list and its configuration as inputs; the REST calls that fetch them are not modelled.
- StackApply.Configure: the resize in `stack_apply` always succeeds and records the disk as given; the not-found, configuration and boot-disk failures of `resize_vms_disk` are modelled only in Proxmox.ResizeVmsDisk. Operations.StackOperations.ConfigureVm inherits this.
- StackApply.Restarted: the resize in `stack_apply` always succeeds and records the disk as given, as for StackApply.Configure. Operations.StackOperations.Restart inherits this.
- ClusterState.WithStatus: VM ids are taken as positive and unique, as Proxmox assigns them; the falsy-vmid branch of `set_vms_status` (the command sent to every listed VM) and its exactly-one-match test are not modelled.
- ClusterState.Cluster.SetVmsStatus: follows ClusterState.WithStatus, with VM ids taken as positive and unique.
- ClusterState.Cluster.CreateHaResource: VM ids are taken as positive, so the `if vmid:` test of `create_ha_resource` is not modelled and a resource is always added.
- ClusterState.VmWithId: VM ids are taken as unique, so the first machine with an id is the only one.
- Text.ParseInt: `int()` is modelled for ASCII digits only; Python also accepts single underscores between digits (`"2_4"`) and any Unicode decimal digit, which the model rejects with ValueError.
- ClusterState.Listed: `World.vms` stands for the machines on online nodes; node status is not modelled.
- Proxmox.CloneVm: returns the clone names; the storage, target and description options are passed through unmodelled.
- Proxmox.DeleteHaResourcesGuarded: the `get_ha_resources` lookup of names is modelled in `StackApply.ResourceEntries`, not inside the deletion.
- Proxmox.FilterDeletions: models the deletion loop of `delete_ha_resources` as a function, not as a loop.
- StackApply.JoinValue: a mapping joined as tags is treated as an error, where Python would join its keys.
- StackApply.ReadFile: a non-string path is treated as an error.
- StackApply.UpdatedKey: `~` in a key path is expanded only when adding instances, as in the source.
- StackConfig.WriteCopies: a `count` of zero or less gives no copies, as `range` does.
- StackDiff.StackDiff: takes dictdiffer's event stream as input; dictdiffer itself is not modelled.
- `delete_ha_resources_by_group_name`, `exists_ha_group`, `exists_vm`, `update_ha_group`, `update_ha_resource` and `vms_wait_for_status` are called by `stack_operations.py` but not defined in `proxmoxlib.py`. The model gives each one the effect its name describes.
- `stack_operations.py` passes keyword arguments that the methods in `proxmoxlib.py` do not accept: `set_mode` of `set_tags`, `proxmox_nodes` of `clone_vm`, `proxmox_nodes` of `create_ha_group`, `filter_name` of `set_vms` and `group` of `get_ha_resources`. The model passes the arguments each call evidently means and ignores the rest, rather than raising `TypeError`.
- Schema validation, the command line (`proxcli.py`) and packaging (`setup.py`) are not part of this model.
- The other client operations (migration, storage, nodes, tasks, configuration files) are not part of this model.

## Findings

| source | as written | input that shows it | evidently intended | confidence | as-written member | corrected member |
|---|---|---|---|---|---|---|
| stack_operations.py:787-790, proxmoxlib.py:441 | `stack_delete` calls `delete_ha_resources(filter_name=…)` with no `vmid`, and `delete_ha_resources` then evaluates `None > 0` | any stack: the filtered deletions run, then `None > 0` raises `TypeError` before any group or machine is deleted | skip the `vmid` branch when no `vmid` is given, so the stack's groups, machines and state file are removed | not executed | StackApply.DeleteAsWrittenRaises | StackApply.GuardedDeleteClears |
| stack_operations.py:709-714, 596-597 | the update sends `updated_properties["cipassword"]` and `["ciuser"]`, but the configuration and the plan name these `password` and `user` | a plan changing `password` from `old` to `new` sends a settings update without the new password | send the new `password` and `user` as `cipassword` and `ciuser`, as adding an instance does | not executed | StackApply.PasswordChangeExample | StackApply.IntendedSettingsCarryChanges |
