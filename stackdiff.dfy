/**
 * `stack_diff`: classifies the differences between the saved state of a
 * stack and its desired (expanded) configuration into a plan. The
 * differences arrive as the event stream `dictdiffer.diff(state, desired)`
 * yields; the plan lists, for HA groups and for instances, the keys added,
 * the keys removed and the per-entity updates.
 */
module StackDiff {
  import opened Wrappers
  import opened Values
  import opened Text
  import opened Dicts

  // ---------------------------------------------------------------------
  // The event stream
  // ---------------------------------------------------------------------

  /** A dictionary key or a list index in a diff path. */
  datatype Key = Name(name: string) | Index(index: int)

  /**
   * Where a difference sits: a dotted string when every step is a string
   * key, a list of keys when a list index is part of the path.
   */
  datatype Path = Dotted(text: string) | Listed(keys: seq<Key>)

  /** One item of the diff: `("add", path, [(key, value)])` and so on. */
  datatype Event =
    | Add(path: Path, entries: seq<(Key, Value)>)
    | Change(path: Path, oldValue: Value, newValue: Value)
    | Remove(path: Path, entries: seq<(Key, Value)>)

  // ---------------------------------------------------------------------
  // The plan
  // ---------------------------------------------------------------------

  /** `{"old": ..., "new": ...}`. */
  datatype Delta = Delta(oldValue: Value, newValue: Value)

  /** `{"added": [...], "removed": [...]}` of an instance's tags. */
  datatype TagDelta = TagDelta(added: seq<Value>, removed: seq<Value>)

  /** An updated instance: its `tags` entry and the changed properties. */
  datatype InstanceUpdate = InstanceUpdate(tags: TagDelta, props: Dict<Delta>)

  /** `{"added": [...], "removed": [...], "updated": {...}}`. */
  datatype Section<U> = Section(added: seq<string>, removed: seq<string>, updated: Dict<U>)

  datatype Plan = Plan(haGroups: Section<Dict<Delta>>, instances: Section<InstanceUpdate>)

  const NoTags := TagDelta([], [])

  function EmptyPlan(): Plan {
    Plan(Section([], [], []), Section([], [], []))
  }

  /**
   * A key as it reaches the plan file: names as they are, indices as
   * decimal text (JSON object keys are strings).
   */
  function KeyText(k: Key): string {
    match k
    case Name(s) => s
    case Index(i) => IntToString(i)
  }

  /** `[i[0] for i in entries]`. */
  function EntryKeys(entries: seq<(Key, Value)>): (r: seq<string>)
    ensures |r| == |entries|
    ensures forall i :: 0 <= i < |entries| ==> r[i] == KeyText(entries[i].0)
  {
    seq(|entries|, i requires 0 <= i < |entries| => KeyText(entries[i].0))
  }

  /** `[i[1] for i in entries]`. */
  function EntryValues(entries: seq<(Key, Value)>): (r: seq<Value>)
    ensures |r| == |entries|
    ensures forall i :: 0 <= i < |entries| ==> r[i] == entries[i].1
  {
    seq(|entries|, i requires 0 <= i < |entries| => entries[i].1)
  }

  // ---------------------------------------------------------------------
  // Path tests
  // ---------------------------------------------------------------------

  /** `word in path`: a substring of a dotted path, an element of a listed one. */
  predicate Mentions(path: Path, word: string) {
    match path
    case Dotted(t) => Occurs(word, t)
    case Listed(ks) => Name(word) in ks
  }

  /** `_, a, b = path.split(".")`, giving (a, b). */
  function SplitThree(path: Path): (r: Outcome<(string, string)>)
    ensures r.Ok? <==> path.Dotted? && |Split(path.text, '.')| == 3
    ensures r.Ok? ==> r.value == (Split(path.text, '.')[1], Split(path.text, '.')[2])
  {
    match path
    case Dotted(t) =>
      var parts := Split(t, '.');
      if |parts| == 3 then Ok((parts[1], parts[2]))
      else Err(ValueError("wrong number of values to unpack"))
    case Listed(_) => Err(AttributeError("'list' object has no attribute 'split'"))
  }

  /**
   * `_, a, _, _ = path`: a list path must have four elements; a string is
   * unpacked character by character.
   */
  function UnpackFour(path: Path): (r: Outcome<string>)
    ensures r.Ok? <==> (path.Listed? && |path.keys| == 4) || (path.Dotted? && |path.text| == 4)
    ensures r.Ok? && path.Listed? ==> r.value == KeyText(path.keys[1])
  {
    match path
    case Listed(ks) =>
      if |ks| == 4 then Ok(KeyText(ks[1])) else Err(ValueError("wrong number of values to unpack"))
    case Dotted(t) =>
      if |t| == 4 then Ok([t[1]]) else Err(ValueError("wrong number of values to unpack"))
  }

  // ---------------------------------------------------------------------
  // Updates of the plan
  // ---------------------------------------------------------------------

  /**
   * Appending the values of ys, in order, that the list does not hold yet
   * (`if v not in xs: xs.append(v)` for each v).
   */
  function AppendNew(xs: seq<Value>, ys: seq<Value>): seq<Value>
    decreases |ys|
  {
    if ys == [] then xs
    else
      var a := AppendNew(xs, ys[..|ys| - 1]);
      if ys[|ys| - 1] in a then a else a + [ys[|ys| - 1]]
  }

  /** What one event does to the entry of one instance. */
  datatype Edit =
    | AddTags(values: seq<Value>)
    | ChangeTag(delta: Delta)
    | RemoveTags(values: seq<Value>)
    | SetProp(prop: string, delta: Delta)

  function ApplyEdit(x: InstanceUpdate, e: Edit): InstanceUpdate {
    match e
    case AddTags(vs) => x.(tags := x.tags.(added := AppendNew(x.tags.added, vs)))
    case ChangeTag(d) => x.(tags := TagDelta(x.tags.added + [d.newValue], x.tags.removed + [d.oldValue]))
    case RemoveTags(vs) => x.(tags := x.tags.(removed := x.tags.removed + vs))
    case SetProp(p, d) => x.(props := Put(x.props, p, d))
  }

  /** `updated.setdefault(name, {"tags": {"added": [], "removed": []}})`. */
  function SetDefaultInstance(u: Dict<InstanceUpdate>, name: string): (r: Dict<InstanceUpdate>)
    ensures name in Keys(r)
  {
    if name in Keys(u) then u
    else
      PutKeys(u, name, InstanceUpdate(NoTags, []));
      Put(u, name, InstanceUpdate(NoTags, []))
  }

  /** The entry of one instance after setdefault and one edit. */
  function Touch(u: Dict<InstanceUpdate>, name: string, e: Edit): Dict<InstanceUpdate> {
    var d := SetDefaultInstance(u, name);
    Put(d, name, ApplyEdit(Get(d, name).value, e))
  }

  /** `updated.setdefault(group, {})[prop] = {"old": ..., "new": ...}`. */
  function SetGroupProp(u: Dict<Dict<Delta>>, group: string, prop: string, delta: Delta): Dict<Dict<Delta>> {
    var d := if group in Keys(u) then u else Put(u, group, []);
    PutKeys(u, group, []);
    PutGet(u, group, [], group);
    Put(d, group, Put(Get(d, group).value, prop, delta))
  }

  /** The four key lists of a plan. */
  datatype KeyList = GroupsAdded | GroupsRemoved | InstancesAdded | InstancesRemoved

  function ListOf(p: Plan, l: KeyList): seq<string> {
    match l
    case GroupsAdded => p.haGroups.added
    case GroupsRemoved => p.haGroups.removed
    case InstancesAdded => p.instances.added
    case InstancesRemoved => p.instances.removed
  }

  /** What one event does to the plan, once its path has been read. */
  datatype Action =
    | Keep
    | Extend(list: KeyList, keys: seq<string>)
    | EditInstance(name: string, edit: Edit)
    | EditGroup(group: string, prop: string, delta: Delta)

  /** Carrying out an action. */
  function Perform(p: Plan, a: Action): Plan {
    match a
    case Keep => p
    case Extend(GroupsAdded, ks) => p.(haGroups := p.haGroups.(added := p.haGroups.added + ks))
    case Extend(GroupsRemoved, ks) => p.(haGroups := p.haGroups.(removed := p.haGroups.removed + ks))
    case Extend(InstancesAdded, ks) => p.(instances := p.instances.(added := p.instances.added + ks))
    case Extend(InstancesRemoved, ks) => p.(instances := p.instances.(removed := p.instances.removed + ks))
    case EditInstance(name, e) => p.(instances := p.instances.(updated := Touch(p.instances.updated, name, e)))
    case EditGroup(group, prop, d) =>
      p.(haGroups := p.haGroups.(updated := SetGroupProp(p.haGroups.updated, group, prop, d)))
  }

  /**
   * What the loop body of `stack_diff` does with one item. For an "add"
   * item the test `path == "instances"` comes first and the tag test
   * second; the path "instances" does not contain "tags", so at most one
   * of them applies. An add or remove of a single property inside an
   * entity and a change outside `ha_groups` and `instances` are ignored.
   * The nested loop that re-appends the added tags once per entry adds
   * nothing after its first pass (AppendNewIdempotent), so it is taken
   * once here.
   */
  function Decide(e: Event): Outcome<Action> {
    match e
    case Add(path, entries) => DecideAdd(path, entries)
    case Change(path, o, n) => DecideChange(path, o, n)
    case Remove(path, entries) => DecideRemove(path, entries)
  }

  function DecideAdd(path: Path, entries: seq<(Key, Value)>): Outcome<Action> {
    if path == Dotted("instances") then Ok(Extend(InstancesAdded, EntryKeys(entries)))
    else if Mentions(path, "instances") && Mentions(path, "tags") then
      var names :- SplitThree(path);
      Ok(if entries == [] then Keep else EditInstance(names.0, AddTags(EntryValues(entries))))
    else if path == Dotted("ha_groups") then Ok(Extend(GroupsAdded, EntryKeys(entries)))
    else Ok(Keep)
  }

  function DecideChange(path: Path, o: Value, n: Value): Outcome<Action> {
    if Mentions(path, "ha_groups") then
      var names :- SplitThree(path);
      Ok(EditGroup(names.0, names.1, Delta(o, n)))
    else if Mentions(path, "instances") then
      if Mentions(path, "tags") then
        var name :- UnpackFour(path);
        Ok(EditInstance(name, ChangeTag(Delta(o, n))))
      else
        var names :- SplitThree(path);
        Ok(EditInstance(names.0, SetProp(names.1, Delta(o, n))))
    else Ok(Keep)
  }

  function DecideRemove(path: Path, entries: seq<(Key, Value)>): Outcome<Action> {
    if Mentions(path, "tags") then
      var names :- SplitThree(path);
      Ok(if entries == [] then Keep else EditInstance(names.0, RemoveTags(EntryValues(entries))))
    else if path == Dotted("instances") then Ok(Extend(InstancesRemoved, EntryKeys(entries)))
    else if path == Dotted("ha_groups") then Ok(Extend(GroupsRemoved, EntryKeys(entries)))
    else Ok(Keep)
  }

  /** One item of the diff applied to the plan; an exception ends the walk. */
  function Step(p: Plan, e: Event): Outcome<Plan> {
    var a :- Decide(e);
    Ok(Perform(p, a))
  }

  /** The events classified in order from p; the first exception ends the walk. */
  function ClassifyFrom(p: Plan, events: seq<Event>): Outcome<Plan>
    decreases |events|
  {
    if events == [] then Ok(p)
    else
      var q :- Step(p, events[0]);
      ClassifyFrom(q, events[1..])
  }

  function Classify(events: seq<Event>): Outcome<Plan> {
    ClassifyFrom(EmptyPlan(), events)
  }

  // ---------------------------------------------------------------------
  // The classifier
  // ---------------------------------------------------------------------

  /** `for key in [i[0] for i in entries]: keys.append(key)`. */
  method AppendKeys(keys: seq<string>, entries: seq<(Key, Value)>) returns (r: seq<string>)
    ensures r == keys + EntryKeys(entries)
  {
    r := keys;
    var j := 0;
    while j < |entries|
      invariant 0 <= j <= |entries|
      invariant r == keys + EntryKeys(entries[..j])
    {
      assert EntryKeys(entries[..j + 1]) == EntryKeys(entries[..j]) + [KeyText(entries[j].0)];
      r := r + [KeyText(entries[j].0)];
      j := j + 1;
    }
    assert entries[..j] == entries;
  }

  /** `for tag in entries: if tag[1] not in tags: tags.append(tag[1])`. */
  method AppendNewTags(tags: seq<Value>, entries: seq<(Key, Value)>) returns (r: seq<Value>)
    ensures r == AppendNew(tags, EntryValues(entries))
  {
    r := tags;
    var j := 0;
    while j < |entries|
      invariant 0 <= j <= |entries|
      invariant r == AppendNew(tags, EntryValues(entries)[..j])
    {
      var vs := EntryValues(entries)[..j + 1];
      assert vs[..|vs| - 1] == EntryValues(entries)[..j];
      if entries[j].1 !in r {
        r := r + [entries[j].1];
      }
      j := j + 1;
    }
    assert EntryValues(entries)[..j] == EntryValues(entries);
  }

  /** `for tag in entries: removed.append(tag[1])`. */
  method AppendValues(values: seq<Value>, entries: seq<(Key, Value)>) returns (r: seq<Value>)
    ensures r == values + EntryValues(entries)
  {
    r := values;
    var j := 0;
    while j < |entries|
      invariant 0 <= j <= |entries|
      invariant r == values + EntryValues(entries)[..j]
    {
      assert EntryValues(entries)[..j + 1] == EntryValues(entries)[..j] + [entries[j].1];
      r := r + [entries[j].1];
      j := j + 1;
    }
    assert EntryValues(entries)[..j] == EntryValues(entries);
  }

  /** The loop body of `stack_diff` for an "add" item. */
  method ClassifyAdd(plan: Plan, path: Path, entries: seq<(Key, Value)>) returns (r: Outcome<Plan>)
    ensures r == Step(plan, Add(path, entries))
  {
    var groups, instances := plan.haGroups, plan.instances;
    if path == Dotted("instances") {
      TagsNotInInstances();
      assert DecideAdd(path, entries) == Ok(Extend(InstancesAdded, EntryKeys(entries)));
      var added := AppendKeys(instances.added, entries);
      instances := instances.(added := added);
      assert Step(plan, Add(path, entries)) == Ok(Plan(groups, instances));
    }
    if Mentions(path, "instances") && Mentions(path, "tags") {
      var names := SplitThree(path);
      if names.Err? {
        return Err(names.error);
      }
      if entries != [] {
        assert DecideAdd(path, entries) == Ok(EditInstance(names.value.0, AddTags(EntryValues(entries))));
        var q := AddTagsOf(plan, names.value.0, entries);
        return Ok(q);
      }
    } else if path == Dotted("ha_groups") {
      InstancesNotInGroups();
      assert DecideAdd(path, entries) == Ok(Extend(GroupsAdded, EntryKeys(entries)));
      var added := AppendKeys(groups.added, entries);
      groups := groups.(added := added);
      assert Step(plan, Add(path, entries)) == Ok(Plan(groups, instances));
    }
    return Ok(Plan(groups, instances));
  }

  /** Tags appended to one instance's list, added to its `tags.added` unless already there. */
  method AddTagsOf(plan: Plan, name: string, entries: seq<(Key, Value)>) returns (q: Plan)
    ensures q == Perform(plan, EditInstance(name, AddTags(EntryValues(entries))))
  {
    var updated := SetDefaultInstance(plan.instances.updated, name);
    var x := Get(updated, name).value;
    var added := AppendNewTags(x.tags.added, entries);
    q := plan.(instances := plan.instances.(updated := Put(updated, name, x.(tags := x.tags.(added := added)))));
  }

  /** The loop body of `stack_diff` for a "change" item. */
  method ClassifyChange(plan: Plan, path: Path, o: Value, n: Value) returns (r: Outcome<Plan>)
    ensures r == Step(plan, Change(path, o, n))
  {
    if Mentions(path, "ha_groups") {
      var names := SplitThree(path);
      if names.Err? {
        return Err(names.error);
      }
      assert DecideChange(path, o, n) == Ok(EditGroup(names.value.0, names.value.1, Delta(o, n)));
      var q := SetGroupPropOf(plan, names.value.0, names.value.1, Delta(o, n));
      return Ok(q);
    } else if Mentions(path, "instances") {
      if Mentions(path, "tags") {
        var name := UnpackFour(path);
        if name.Err? {
          return Err(name.error);
        }
        assert DecideChange(path, o, n) == Ok(EditInstance(name.value, ChangeTag(Delta(o, n))));
        var q := ChangeTagOf(plan, name.value, o, n);
        return Ok(q);
      } else {
        var names := SplitThree(path);
        if names.Err? {
          return Err(names.error);
        }
        assert DecideChange(path, o, n) == Ok(EditInstance(names.value.0, SetProp(names.value.1, Delta(o, n))));
        var q := SetPropOf(plan, names.value.0, names.value.1, Delta(o, n));
        return Ok(q);
      }
    }
    return Ok(plan);
  }

  /** A changed property of an HA group: `updated[group][prop] = {old, new}`. */
  method SetGroupPropOf(plan: Plan, group: string, prop: string, delta: Delta) returns (q: Plan)
    ensures q == Perform(plan, EditGroup(group, prop, delta))
  {
    var groups := plan.haGroups.(updated := SetGroupProp(plan.haGroups.updated, group, prop, delta));
    q := plan.(haGroups := groups);
  }

  /** A tag changed in place: the old value to `tags.removed`, the new one to `tags.added`. */
  method ChangeTagOf(plan: Plan, name: string, o: Value, n: Value) returns (q: Plan)
    ensures q == Perform(plan, EditInstance(name, ChangeTag(Delta(o, n))))
  {
    var updated := SetDefaultInstance(plan.instances.updated, name);
    var x := Get(updated, name).value;
    var tags := TagDelta(x.tags.added + [n], x.tags.removed + [o]);
    q := plan.(instances := plan.instances.(updated := Put(updated, name, x.(tags := tags))));
  }

  /** A changed property of an instance: `updated[name][prop] = {old, new}`. */
  method SetPropOf(plan: Plan, name: string, prop: string, delta: Delta) returns (q: Plan)
    ensures q == Perform(plan, EditInstance(name, SetProp(prop, delta)))
  {
    var updated := SetDefaultInstance(plan.instances.updated, name);
    var x := Get(updated, name).value;
    var props := Put(x.props, prop, delta);
    q := plan.(instances := plan.instances.(updated := Put(updated, name, x.(props := props))));
  }

  /** Tags dropped from one instance's list, appended to its `tags.removed`. */
  method RemoveTagsOf(plan: Plan, name: string, entries: seq<(Key, Value)>) returns (q: Plan)
    ensures q == Perform(plan, EditInstance(name, RemoveTags(EntryValues(entries))))
  {
    var updated := SetDefaultInstance(plan.instances.updated, name);
    var x := Get(updated, name).value;
    var removed := AppendValues(x.tags.removed, entries);
    q := plan.(instances := plan.instances.(updated := Put(updated, name, x.(tags := x.tags.(removed := removed)))));
  }

  /** The loop body of `stack_diff` for a "remove" item. */
  method ClassifyRemove(plan: Plan, path: Path, entries: seq<(Key, Value)>) returns (r: Outcome<Plan>)
    ensures r == Step(plan, Remove(path, entries))
  {
    if Mentions(path, "tags") {
      var names := SplitThree(path);
      if names.Err? {
        return Err(names.error);
      }
      if entries != [] {
        assert DecideRemove(path, entries) == Ok(EditInstance(names.value.0, RemoveTags(EntryValues(entries))));
        var q := RemoveTagsOf(plan, names.value.0, entries);
        return Ok(q);
      }
      return Ok(plan);
    }
    var groups, instances := plan.haGroups, plan.instances;
    if path == Dotted("instances") {
      TagsNotInInstances();
      assert DecideRemove(path, entries) == Ok(Extend(InstancesRemoved, EntryKeys(entries)));
      var removed := AppendKeys(instances.removed, entries);
      assert Step(plan, Remove(path, entries)) == Ok(Perform(plan, Extend(InstancesRemoved, EntryKeys(entries))));
      return Ok(plan.(instances := instances.(removed := removed)));
    } else if path == Dotted("ha_groups") {
      TagsNotInGroups();
      assert DecideRemove(path, entries) == Ok(Extend(GroupsRemoved, EntryKeys(entries)));
      var removed := AppendKeys(groups.removed, entries);
      assert Step(plan, Remove(path, entries)) == Ok(Perform(plan, Extend(GroupsRemoved, EntryKeys(entries))));
      return Ok(plan.(haGroups := groups.(removed := removed)));
    }
    return Ok(plan);
  }

  /**
   * `stack_diff` over the event stream: fills the HA-group and instance
   * sections event by event; the first exception ends it.
   */
  method StackDiff(events: seq<Event>) returns (r: Outcome<Plan>)
    ensures r == Classify(events)
  {
    var plan := EmptyPlan();
    var k := 0;
    while k < |events|
      invariant 0 <= k <= |events|
      invariant ClassifyFrom(plan, events[k..]) == Classify(events)
    {
      assert events[k..][0] == events[k] && events[k..][1..] == events[k + 1..];
      var next: Outcome<Plan>;
      match events[k] {
        case Add(path, entries) => next := ClassifyAdd(plan, path, entries);
        case Change(path, o, n) => next := ClassifyChange(plan, path, o, n);
        case Remove(path, entries) => next := ClassifyRemove(plan, path, entries);
      }
      if next.Err? {
        return Err(next.error);
      }
      plan := next.value;
      k := k + 1;
    }
    return Ok(plan);
  }

  // ---------------------------------------------------------------------
  // Appending tags without duplicates
  // ---------------------------------------------------------------------

  predicate Distinct<T(==)>(s: seq<T>) {
    forall i, j :: 0 <= i < j < |s| ==> s[i] != s[j]
  }

  /**
   * Appending new tags keeps the list as a prefix, adds every value of ys,
   * and adds nothing that is not in ys.
   */
  lemma {:induction false} AppendNewContents(xs: seq<Value>, ys: seq<Value>)
    ensures |AppendNew(xs, ys)| >= |xs| && AppendNew(xs, ys)[..|xs|] == xs
    ensures forall v :: v in ys ==> v in AppendNew(xs, ys)
    ensures forall v :: v in AppendNew(xs, ys) ==> v in xs || v in ys
    decreases |ys|
  {
    if ys != [] {
      var init := ys[..|ys| - 1];
      AppendNewContents(xs, init);
      assert ys == init + [ys[|ys| - 1]];
    }
  }

  /** Appending only values not yet present keeps a duplicate-free list so. */
  lemma {:induction false} AppendNewDistinct(xs: seq<Value>, ys: seq<Value>)
    requires Distinct(xs)
    ensures Distinct(AppendNew(xs, ys))
    decreases |ys|
  {
    if ys != [] {
      AppendNewDistinct(xs, ys[..|ys| - 1]);
    }
  }

  /** Values that are all present already add nothing. */
  lemma {:induction false} AppendNewPresent(xs: seq<Value>, ys: seq<Value>)
    requires forall v :: v in ys ==> v in xs
    ensures AppendNew(xs, ys) == xs
    decreases |ys|
  {
    if ys != [] {
      AppendNewPresent(xs, ys[..|ys| - 1]);
    }
  }

  /**
   * Repeating the append pass over the same values changes nothing, which
   * is why the per-entry repetition of that pass in `stack_diff` is
   * modelled as a single pass.
   */
  lemma AppendNewIdempotent(xs: seq<Value>, ys: seq<Value>)
    ensures AppendNew(AppendNew(xs, ys), ys) == AppendNew(xs, ys)
  {
    AppendNewContents(xs, ys);
    AppendNewPresent(AppendNew(xs, ys), ys);
  }

  // ---------------------------------------------------------------------
  // The entry of one instance
  // ---------------------------------------------------------------------

  /** The entry an instance has in `updated`, or the setdefault default. */
  function EntryOf(u: Dict<InstanceUpdate>, name: string): InstanceUpdate {
    Get(u, name).GetOr(InstanceUpdate(NoTags, []))
  }

  /** One edit changes the named instance's entry only. */
  lemma TouchGet(u: Dict<InstanceUpdate>, name: string, e: Edit, other: string)
    ensures Get(Touch(u, name, e), other)
         == if other == name then Some(ApplyEdit(EntryOf(u, name), e)) else Get(u, other)
  {
    var d := SetDefaultInstance(u, name);
    if name !in Keys(u) {
      PutGet(u, name, InstanceUpdate(NoTags, []), name);
      PutGet(u, name, InstanceUpdate(NoTags, []), other);
    }
    PutGet(d, name, ApplyEdit(Get(d, name).value, e), other);
  }

  /** An edit keeps the instance names of `updated` distinct. */
  lemma TouchValid(u: Dict<InstanceUpdate>, name: string, e: Edit)
    requires Valid(u)
    ensures Valid(Touch(u, name, e))
  {
    var d := SetDefaultInstance(u, name);
    if name !in Keys(u) {
      PutValid(u, name, InstanceUpdate(NoTags, []));
    }
    PutValid(d, name, ApplyEdit(Get(d, name).value, e));
  }

  // ---------------------------------------------------------------------
  // One event
  // ---------------------------------------------------------------------

  /** The names of the two sections do not contain each other or "tags". */
  lemma TagsNotInInstances()
    ensures !Occurs("tags", "instances")
  {
    MissingCharAbsent("tags", "instances", 'g');
  }

  lemma TagsNotInGroups()
    ensures !Occurs("tags", "ha_groups")
  {
    MissingCharAbsent("tags", "ha_groups", 't');
  }

  lemma InstancesNotInGroups()
    ensures !Occurs("instances", "ha_groups")
  {
    MissingCharAbsent("instances", "ha_groups", 'i');
  }

  lemma InstancesNotGroups()
    ensures "instances" != "ha_groups"
  {
    assert "instances"[0] != "ha_groups"[0];
  }

  /**
   * A changed scalar property of an instance is recorded as
   * `updated[name][prop] = {old, new}`; the entry keeps its tags, which
   * start empty for an instance seen for the first time, and no other
   * instance's entry changes.
   */
  lemma StepRecordsInstanceChange(p: Plan, t: string, o: Value, n: Value, other: string)
    requires Occurs("instances", t) && !Occurs("ha_groups", t) && !Occurs("tags", t)
    requires |Split(t, '.')| == 3
    ensures Step(p, Change(Dotted(t), o, n)).Ok?
    ensures var q := Step(p, Change(Dotted(t), o, n)).value;
            var name, prop := Split(t, '.')[1], Split(t, '.')[2];
            && Get(q.instances.updated, name).Some?
            && Get(Get(q.instances.updated, name).value.props, prop) == Some(Delta(o, n))
            && Get(q.instances.updated, name).value.tags == EntryOf(p.instances.updated, name).tags
            && (other != name ==> Get(q.instances.updated, other) == Get(p.instances.updated, other))
            && q.haGroups == p.haGroups
  {
    var name, prop := Split(t, '.')[1], Split(t, '.')[2];
    var a := EditInstance(name, SetProp(prop, Delta(o, n)));
    assert DecideChange(Dotted(t), o, n) == Ok(a);
    assert Step(p, Change(Dotted(t), o, n)) == Ok(Perform(p, a));
    TouchGet(p.instances.updated, name, SetProp(prop, Delta(o, n)), name);
    TouchGet(p.instances.updated, name, SetProp(prop, Delta(o, n)), other);
    PutGet(EntryOf(p.instances.updated, name).props, prop, Delta(o, n), prop);
  }

  /** A changed property of an HA group is recorded as `updated[group][prop] = {old, new}`. */
  lemma StepRecordsGroupChange(p: Plan, t: string, o: Value, n: Value)
    requires Occurs("ha_groups", t) && |Split(t, '.')| == 3
    ensures Step(p, Change(Dotted(t), o, n)).Ok?
    ensures var q := Step(p, Change(Dotted(t), o, n)).value;
            var group, prop := Split(t, '.')[1], Split(t, '.')[2];
            && Get(q.haGroups.updated, group).Some?
            && Get(Get(q.haGroups.updated, group).value, prop) == Some(Delta(o, n))
            && q.instances == p.instances
  {
    var group, prop := Split(t, '.')[1], Split(t, '.')[2];
    var a := EditGroup(group, prop, Delta(o, n));
    assert DecideChange(Dotted(t), o, n) == Ok(a);
    assert Step(p, Change(Dotted(t), o, n)) == Ok(Perform(p, a));
    SetGroupPropGet(p.haGroups.updated, group, prop, Delta(o, n));
  }

  /** After `updated.setdefault(group, {})[prop] = delta` the group's entry maps prop to delta. */
  lemma SetGroupPropGet(u: Dict<Dict<Delta>>, group: string, prop: string, delta: Delta)
    ensures Get(SetGroupProp(u, group, prop, delta), group).Some?
    ensures Get(Get(SetGroupProp(u, group, prop, delta), group).value, prop) == Some(delta)
  {
    var d := if group in Keys(u) then u else Put(u, group, []);
    PutGet(u, group, [], group);
    PutGet(d, group, Put(Get(d, group).value, prop, delta), group);
    PutGet(Get(d, group).value, prop, delta, prop);
  }

  /**
   * Tags appended to an instance's list go into its `tags.added`, each
   * value at most once; `tags.removed` is untouched.
   */
  lemma StepAddsTags(p: Plan, t: string, entries: seq<(Key, Value)>)
    requires Occurs("instances", t) && Occurs("tags", t) && |Split(t, '.')| == 3
    requires entries != []
    ensures Step(p, Add(Dotted(t), entries)).Ok?
    ensures var q := Step(p, Add(Dotted(t), entries)).value;
            var name := Split(t, '.')[1];
            var before := EntryOf(p.instances.updated, name).tags;
            Get(q.instances.updated, name)
              == Some(EntryOf(p.instances.updated, name).(tags := before.(added := AppendNew(before.added, EntryValues(entries)))))
  {
    TagsNotInInstances();
    var name := Split(t, '.')[1];
    assert DecideAdd(Dotted(t), entries) == Ok(EditInstance(name, AddTags(EntryValues(entries))));
    TouchGet(p.instances.updated, name, AddTags(EntryValues(entries)), name);
  }

  /**
   * A tag changed in place (a list path such as
   * `["instances", name, "tags", i]`) puts the old value in `removed` and
   * the new one in `added`.
   */
  lemma StepChangesTag(p: Plan, ks: seq<Key>, o: Value, n: Value)
    requires |ks| == 4 && Name("instances") in ks && Name("tags") in ks && Name("ha_groups") !in ks
    ensures Step(p, Change(Listed(ks), o, n)).Ok?
    ensures var q := Step(p, Change(Listed(ks), o, n)).value;
            var before := EntryOf(p.instances.updated, KeyText(ks[1])).tags;
            && Get(q.instances.updated, KeyText(ks[1])).Some?
            && Get(q.instances.updated, KeyText(ks[1])).value.tags
               == TagDelta(before.added + [n], before.removed + [o])
  {
    assert DecideChange(Listed(ks), o, n) == Ok(EditInstance(KeyText(ks[1]), ChangeTag(Delta(o, n))));
    TouchGet(p.instances.updated, KeyText(ks[1]), ChangeTag(Delta(o, n)), KeyText(ks[1]));
  }

  /** Tags dropped from an instance's list go into its `tags.removed`, in order. */
  lemma StepRemovesTags(p: Plan, t: string, entries: seq<(Key, Value)>)
    requires Occurs("tags", t) && |Split(t, '.')| == 3 && entries != []
    ensures Step(p, Remove(Dotted(t), entries)).Ok?
    ensures var q := Step(p, Remove(Dotted(t), entries)).value;
            var before := EntryOf(p.instances.updated, Split(t, '.')[1]).tags;
            && Get(q.instances.updated, Split(t, '.')[1]).Some?
            && Get(q.instances.updated, Split(t, '.')[1]).value.tags
               == TagDelta(before.added, before.removed + EntryValues(entries))
  {
    var name := Split(t, '.')[1];
    assert DecideRemove(Dotted(t), entries) == Ok(EditInstance(name, RemoveTags(EntryValues(entries))));
    TouchGet(p.instances.updated, name, RemoveTags(EntryValues(entries)), name);
  }

  /**
   * A dotted path that mentions "tags" under `instances` cannot be unpacked
   * into four parts, so a changed property of an instance whose name
   * contains "tags" raises ValueError.
   */
  lemma ChangeUnderTaggedNameFails(p: Plan, t: string, o: Value, n: Value)
    requires Occurs("instances", t) && Occurs("tags", t) && !Occurs("ha_groups", t)
    ensures Step(p, Change(Dotted(t), o, n)).Err?
    ensures Step(p, Change(Dotted(t), o, n)).error.ValueError?
  {

  }

  /** A listed path under `ha_groups` (a list-valued group property) raises AttributeError. */
  lemma ListedGroupChangeFails(p: Plan, ks: seq<Key>, o: Value, n: Value)
    requires Name("ha_groups") in ks
    ensures Step(p, Change(Listed(ks), o, n)) == Err(AttributeError("'list' object has no attribute 'split'"))
  {
  }

  /** The events `stack_diff` silently ignores. */
  predicate Dropped(e: Event) {
    match e
    case Add(path, _) =>
      path != Dotted("instances") && path != Dotted("ha_groups")
      && !(Mentions(path, "instances") && Mentions(path, "tags"))
    case Change(path, _, _) => !Mentions(path, "ha_groups") && !Mentions(path, "instances")
    case Remove(path, _) =>
      !Mentions(path, "tags") && path != Dotted("instances") && path != Dotted("ha_groups")
  }

  /** An ignored event leaves the plan as it is. */
  lemma StepDropped(p: Plan, e: Event)
    requires Dropped(e)
    ensures Step(p, e) == Ok(p)
  {
  }

  /**
   * Adding or removing a single property inside an existing group or
   * instance, for instance `Add(Dotted("instances.web"), [("cores", 2)])`,
   * is such an event.
   */
  lemma PropertyAddIsDropped(t: string, entries: seq<(Key, Value)>)
    requires t != "instances" && t != "ha_groups" && !Occurs("tags", t)
    ensures Dropped(Add(Dotted(t), entries)) && Dropped(Remove(Dotted(t), entries))
  {
  }

  // ---------------------------------------------------------------------
  // The whole stream
  // ---------------------------------------------------------------------

  /** Classifying a + b is classifying a, then b from where a left off. */
  lemma {:induction false} ClassifyFromAppend(p: Plan, a: seq<Event>, b: seq<Event>)
    ensures ClassifyFrom(p, a + b)
         == match ClassifyFrom(p, a) case Ok(q) => ClassifyFrom(q, b) case Err(x) => Err(x)
    decreases |a|
  {
    if a != [] {
      assert (a + b)[0] == a[0] && (a + b)[1..] == a[1..] + b;
      match Step(p, a[0]) {
        case Ok(q) => ClassifyFromAppend(q, a[1..], b);
        case Err(_) =>
      }
    } else {
      assert a + b == b;
    }
  }

  /** An ignored event can be taken out of the stream without changing the plan. */
  lemma ClassifySkipsDropped(a: seq<Event>, e: Event, b: seq<Event>)
    requires Dropped(e)
    ensures Classify(a + [e] + b) == Classify(a + b)
  {
    ClassifyFromAppend(EmptyPlan(), a, [e] + b);
    ClassifyFromAppend(EmptyPlan(), a, b);
    assert a + [e] + b == a + ([e] + b);
    assert ([e] + b)[0] == e && ([e] + b)[1..] == b;
    if ClassifyFrom(EmptyPlan(), a).Ok? {
      StepDropped(ClassifyFrom(EmptyPlan(), a).value, e);
    }
  }

  /** The keys an event names directly under the list's section, if it adds (or removes) there. */
  function Keyed(e: Event, l: KeyList): seq<string> {
    var section := if l == GroupsAdded || l == GroupsRemoved then "ha_groups" else "instances";
    match e
    case Add(path, entries) =>
      if (l == GroupsAdded || l == InstancesAdded) && path == Dotted(section) then EntryKeys(entries) else []
    case Change(_, _, _) => []
    case Remove(path, entries) =>
      if (l == GroupsRemoved || l == InstancesRemoved) && path == Dotted(section) then EntryKeys(entries) else []
  }

  function KeyedAll(events: seq<Event>, l: KeyList): seq<string>
    decreases |events|
  {
    if events == [] then [] else Keyed(events[0], l) + KeyedAll(events[1..], l)
  }

  /** The keys the action of an event appends to a list. */
  function Appended(a: Action, l: KeyList): seq<string> {
    if a.Extend? && a.list == l then a.keys else []
  }

  lemma PerformKeyList(p: Plan, a: Action, l: KeyList)
    ensures ListOf(Perform(p, a), l) == ListOf(p, l) + Appended(a, l)
  {
  }

  /** The keys an event's action appends are those it names directly under the section. */
  lemma DecideKeyed(e: Event, l: KeyList)
    requires Decide(e).Ok?
    ensures Appended(Decide(e).value, l) == Keyed(e, l)
  {
    match e
    case Add(path, entries) => AddKeyed(path, entries, l);
    case Change(_, _, _) =>
    case Remove(path, entries) => RemoveKeyed(path, entries, l);
  }

  lemma AddKeyed(path: Path, entries: seq<(Key, Value)>, l: KeyList)
    requires DecideAdd(path, entries).Ok?
    ensures Appended(DecideAdd(path, entries).value, l) == Keyed(Add(path, entries), l)
  {
    if path == Dotted("ha_groups") {
      InstancesNotInGroups();
    }
  }

  lemma RemoveKeyed(path: Path, entries: seq<(Key, Value)>, l: KeyList)
    requires DecideRemove(path, entries).Ok?
    ensures Appended(DecideRemove(path, entries).value, l) == Keyed(Remove(path, entries), l)
  {
    if path == Dotted("instances") {
      TagsNotInInstances();
    } else if path == Dotted("ha_groups") {
      TagsNotInGroups();
    }
  }

  /**
   * The keys added directly under `instances` and `ha_groups` are the
   * `added` lists, those removed there the `removed` lists, each in event
   * order.
   */
  lemma {:induction false} ClassifyKeyList(p: Plan, events: seq<Event>, l: KeyList)
    requires ClassifyFrom(p, events).Ok?
    ensures ListOf(ClassifyFrom(p, events).value, l) == ListOf(p, l) + KeyedAll(events, l)
    decreases |events|
  {
    if events != [] {
      ClassifyFromFirst(p, events);
      var q := Step(p, events[0]).value;
      var r := ClassifyFrom(p, events).value;
      assert ListOf(q, l) == ListOf(p, l) + Keyed(events[0], l) by { StepKeyList(p, events[0], l); }
      assert ListOf(r, l) == ListOf(q, l) + KeyedAll(events[1..], l) by { ClassifyKeyList(q, events[1..], l); }
      assert KeyedAll(events, l) == Keyed(events[0], l) + KeyedAll(events[1..], l);
    }
  }

  /** A walk that succeeds takes its first step and goes on from there. */
  lemma ClassifyFromFirst(p: Plan, events: seq<Event>)
    requires events != [] && ClassifyFrom(p, events).Ok?
    ensures Step(p, events[0]).Ok?
    ensures ClassifyFrom(p, events) == ClassifyFrom(Step(p, events[0]).value, events[1..])
  {
  }

  /** One event appends to a key list exactly the keys it names directly under the section. */
  lemma StepKeyList(p: Plan, e: Event, l: KeyList)
    requires Step(p, e).Ok?
    ensures ListOf(Step(p, e).value, l) == ListOf(p, l) + Keyed(e, l)
  {
    DecideKeyed(e, l);
    PerformKeyList(p, Decide(e).value, l);
  }

  /** The events that write into an `updated` map. */
  predicate Edits(e: Event) {
    match e
    case Add(path, _) => Mentions(path, "instances") && Mentions(path, "tags")
    case Change(_, _, _) => true
    case Remove(path, _) => Mentions(path, "tags")
  }

  /**
   * A stream of key-level events alone cannot fail and gives exactly the
   * key lists with empty `updated` maps; with no events at all (two
   * identical trees) the plan is empty.
   */
  lemma {:induction false} ClassifyKeyLevel(events: seq<Event>)
    requires forall i :: 0 <= i < |events| ==> !Edits(events[i])
    ensures Classify(events) == Ok(Plan(
              Section(KeyedAll(events, GroupsAdded), KeyedAll(events, GroupsRemoved), []),
              Section(KeyedAll(events, InstancesAdded), KeyedAll(events, InstancesRemoved), [])))
    ensures events == [] ==> Classify(events) == Ok(EmptyPlan())
  {
    KeyLevelFrom(EmptyPlan(), events);
    var q := Classify(events).value;
    ClassifyKeyList(EmptyPlan(), events, GroupsAdded);
    ClassifyKeyList(EmptyPlan(), events, GroupsRemoved);
    ClassifyKeyList(EmptyPlan(), events, InstancesAdded);
    ClassifyKeyList(EmptyPlan(), events, InstancesRemoved);
    assert q.haGroups == Section(KeyedAll(events, GroupsAdded), KeyedAll(events, GroupsRemoved), []);
    assert q.instances == Section(KeyedAll(events, InstancesAdded), KeyedAll(events, InstancesRemoved), []);
  }

  lemma {:induction false} KeyLevelFrom(p: Plan, events: seq<Event>)
    requires forall i :: 0 <= i < |events| ==> !Edits(events[i])
    ensures ClassifyFrom(p, events).Ok?
    ensures ClassifyFrom(p, events).value.haGroups.updated == p.haGroups.updated
    ensures ClassifyFrom(p, events).value.instances.updated == p.instances.updated
    decreases |events|
  {
    if events != [] {
      assert !Edits(events[0]);
      var a := Decide(events[0]).value;
      assert a.Keep? || a.Extend?;
      var q := Perform(p, a);
      assert q.haGroups.updated == p.haGroups.updated && q.instances.updated == p.instances.updated;
      assert forall i :: 0 <= i < |events[1..]| ==> events[1..][i] == events[i + 1];
      KeyLevelFrom(q, events[1..]);
    }
  }

  /** Every instance entry's `tags.added` holds no value twice. */
  predicate TagsAddedDistinct(u: Dict<InstanceUpdate>) {
    forall e :: e in u ==> Distinct(e.1.tags.added)
  }

  /** A positional tag change: the one event that may append a value already present. */
  predicate ChangesTag(e: Event) {
    e.Change? && !Mentions(e.path, "ha_groups") && Mentions(e.path, "instances") && Mentions(e.path, "tags")
  }

  /** An edit other than a positional tag change keeps `tags.added` duplicate-free. */
  lemma EditKeepsDistinct(u: Dict<InstanceUpdate>, name: string, e: Edit)
    requires TagsAddedDistinct(u) && !e.ChangeTag?
    ensures TagsAddedDistinct(Touch(u, name, e))
  {
    var d := SetDefaultInstance(u, name);
    if name !in Keys(u) {
      PutEntries(u, name, InstanceUpdate(NoTags, []));
    }
    assert TagsAddedDistinct(d);
    var x := Get(d, name).value;
    assert (name, x) in d;
    if e.AddTags? {
      AppendNewDistinct(x.tags.added, e.values);
    }
    PutEntries(d, name, ApplyEdit(x, e));
  }

  /** Every event other than a positional tag change keeps `tags.added` duplicate-free. */
  lemma StepTagsDistinct(p: Plan, e: Event)
    requires TagsAddedDistinct(p.instances.updated) && !ChangesTag(e) && Step(p, e).Ok?
    ensures TagsAddedDistinct(Step(p, e).value.instances.updated)
  {
    var a := Decide(e).value;
    assert Step(p, e) == Ok(Perform(p, a));
    DecideNoTagChange(e);
    if a.EditInstance? {
      EditKeepsDistinct(p.instances.updated, a.name, a.edit);
    }
  }

  /** Only a positional tag change decides on a ChangeTag edit. */
  lemma DecideNoTagChange(e: Event)
    requires !ChangesTag(e) && Decide(e).Ok?
    ensures !(Decide(e).value.EditInstance? && Decide(e).value.edit.ChangeTag?)
  {
    match e
    case Add(path, entries) => assert Decide(e) == DecideAdd(path, entries);
    case Change(path, o, n) => assert Decide(e) == DecideChange(path, o, n);
    case Remove(path, entries) => assert Decide(e) == DecideRemove(path, entries);
  }

  /**
   * With no positional tag change in the stream, no instance's
   * `tags.added` lists a value twice.
   */
  lemma {:induction false} ClassifyTagsDistinct(p: Plan, events: seq<Event>)
    requires TagsAddedDistinct(p.instances.updated)
    requires forall i :: 0 <= i < |events| ==> !ChangesTag(events[i])
    requires ClassifyFrom(p, events).Ok?
    ensures TagsAddedDistinct(ClassifyFrom(p, events).value.instances.updated)
    decreases |events|
  {
    if events != [] {
      assert !ChangesTag(events[0]);
      StepTagsDistinct(p, events[0]);
      assert forall i :: 0 <= i < |events[1..]| ==> events[1..][i] == events[i + 1];
      ClassifyTagsDistinct(Step(p, events[0]).value, events[1..]);
    }
  }
}
