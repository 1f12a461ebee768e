/** Export of a board's tasks as Taskwarrior records (daikanban/ext/taskwarrior.py). */
module Taskwarrior {
  import opened Wrappers
  import opened Dicts
  import opened Tasks
  import Model

  /** The JSON-like values a record field or user-defined attribute (UDA) can hold. */
  datatype Value =
    | VNone
    | VBool(b: bool)
    | VInt(i: int)
    | VNum(r: real)
    | VStr(s: string)
    | VTime(t: Model.Time)
    | VList(items: seq<Value>)
    | VDict(entries: seq<(string, Value)>)

  // ---------------------------------------------------------------------------
  // Python's `sorted` on strings and on ids
  // ---------------------------------------------------------------------------

  /** Lexicographic order on code points, as Python compares `str` values. */
  predicate StrLe(a: string, b: string)
    decreases |a|
  {
    |a| == 0 || (|b| > 0 && (a[0] < b[0] || (a[0] == b[0] && StrLe(a[1..], b[1..]))))
  }

  lemma {:induction false} StrLeReflexive(a: string)
    ensures StrLe(a, a)
    decreases |a|
  {
    if |a| > 0 {
      StrLeReflexive(a[1..]);
    }
  }

  lemma {:induction false} StrLeTotal(a: string, b: string)
    ensures StrLe(a, b) || StrLe(b, a)
    decreases |a|
  {
    if |a| > 0 && |b| > 0 && a[0] == b[0] {
      StrLeTotal(a[1..], b[1..]);
    }
  }

  lemma {:induction false} StrLeAntisymmetric(a: string, b: string)
    ensures StrLe(a, b) && StrLe(b, a) ==> a == b
    decreases |a|
  {
    if |a| > 0 && |b| > 0 && a[0] == b[0] {
      StrLeAntisymmetric(a[1..], b[1..]);
      assert a == [a[0]] + a[1..] && b == [b[0]] + b[1..];
    }
  }

  lemma {:induction false} StrLeTransitive(a: string, b: string, c: string)
    ensures StrLe(a, b) && StrLe(b, c) ==> StrLe(a, c)
    decreases |a|
  {
    if |a| > 0 && |b| > 0 && |c| > 0 && a[0] == b[0] && b[0] == c[0] {
      StrLeTransitive(a[1..], b[1..], c[1..]);
    }
  }

  predicate IsMinStr(m: string, s: set<string>) {
    m in s && forall x :: x in s ==> StrLe(m, x)
  }

  lemma {:induction false} MinStrExists(s: set<string>)
    requires s != {}
    ensures exists m :: IsMinStr(m, s)
    decreases |s|
  {
    var x :| x in s;
    StrLeReflexive(x);
    if s == {x} {
      assert IsMinStr(x, s);
    } else {
      var rest := s - {x};
      MinStrExists(rest);
      var m :| IsMinStr(m, rest);
      assert s == rest + {x};
      StrLeTotal(m, x);
      if StrLe(m, x) {
        assert IsMinStr(m, s);
      } else {
        forall y | y in s ensures StrLe(x, y) {
          if y != x {
            StrLeTransitive(x, m, y);
          }
        }
        assert IsMinStr(x, s);
      }
    }
  }

  /** The least string of a non-empty set. */
  function MinStr(s: set<string>): (m: string)
    requires s != {}
    ensures IsMinStr(m, s)
  {
    MinStrExists(s);
    assert forall a, b :: IsMinStr(a, s) && IsMinStr(b, s) ==> a == b by {
      forall a, b | IsMinStr(a, s) && IsMinStr(b, s) ensures a == b {
        StrLeAntisymmetric(a, b);
      }
    }
    var m :| IsMinStr(m, s);
    m
  }

  predicate StrictlySortedStrs(xs: seq<string>) {
    forall i, j :: 0 <= i < j < |xs| ==> StrLe(xs[i], xs[j]) && xs[i] != xs[j]
  }

  /** `sorted(s)` for a set of strings: the least element, then the rest sorted. */
  function SortedStrs(s: set<string>): seq<string>
    decreases |s|
  {
    if s == {} then []
    else
      var m := MinStr(s);
      [m] + SortedStrs(s - {m})
  }

  /** The sorted set lists each of its elements exactly once, in strictly ascending order. */
  lemma {:induction false} SortedStrsSpec(s: set<string>)
    ensures |SortedStrs(s)| == |s| && StrictlySortedStrs(SortedStrs(s))
    ensures forall x :: x in SortedStrs(s) <==> x in s
    decreases |s|
  {
    if s != {} {
      var m := MinStr(s);
      var rest := SortedStrs(s - {m});
      SortedStrsSpec(s - {m});
      forall j | 0 <= j < |rest| ensures rest[j] in s && rest[j] != m {
        assert rest[j] in rest;
      }
    }
  }

  /** The sorted elements of a non-empty set; absent and empty sets both become None. */
  function SortedOrNone(x: Option<set<string>>): (r: Option<seq<string>>)
    ensures r.None? <==> x.None? || x.value == {}
    ensures r.Some? ==> r.value == SortedStrs(x.value) && r.value != []
  {
    if x.Some? && x.value != {} then Some(SortedStrs(x.value)) else None
  }

  predicate StrictlyIncreasing(xs: seq<nat>) {
    forall i, j :: 0 <= i < j < |xs| ==> xs[i] < xs[j]
  }

  /** `sorted(ids)`: the least id, then the rest sorted. */
  function SortedIds(ids: set<nat>): seq<nat>
    decreases |ids|
  {
    if ids == {} then []
    else
      var lowest := MinId(ids);
      [lowest] + SortedIds(ids - {lowest})
  }

  /** The sorted ids list each id exactly once, in strictly ascending order. */
  lemma SortedIdsSpec(ids: set<nat>)
    ensures |SortedIds(ids)| == |ids| && StrictlyIncreasing(SortedIds(ids))
    ensures forall x :: x in SortedIds(ids) <==> x in ids
  {
    SortedIdsMembers(ids);
    SortedIdsIncreasing(ids);
  }

  /** The sorted ids are exactly the ids, as many as there are. */
  lemma {:induction false} SortedIdsMembers(ids: set<nat>)
    ensures |SortedIds(ids)| == |ids|
    ensures forall x :: x in SortedIds(ids) <==> x in ids
    decreases |ids|
  {
    if ids != {} {
      var lowest := MinId(ids);
      var rest := SortedIds(ids - {lowest});
      var r := [lowest] + rest;
      SortedIdsMembers(ids - {lowest});
      forall x ensures x in r <==> x in ids {
        assert x in r <==> x == lowest || x in rest;
      }
    }
  }

  /** Each sorted id is smaller than the next. */
  lemma {:induction false} SortedIdsIncreasing(ids: set<nat>)
    ensures StrictlyIncreasing(SortedIds(ids))
    decreases |ids|
  {
    if ids != {} {
      var lowest := MinId(ids);
      var rest := SortedIds(ids - {lowest});
      SortedIdsIncreasing(ids - {lowest});
      LeastBelowRest(ids, lowest);
      ConsIncreasing(lowest, rest);
    }
  }

  /** The least id is below every id sorted after it. */
  lemma LeastBelowRest(ids: set<nat>, lowest: nat)
    requires lowest in ids && forall x :: x in ids ==> lowest <= x
    ensures forall j :: 0 <= j < |SortedIds(ids - {lowest})| ==> lowest < SortedIds(ids - {lowest})[j]
  {
    var rest := SortedIds(ids - {lowest});
    SortedIdsMembers(ids - {lowest});
    forall j | 0 <= j < |rest| ensures lowest < rest[j] {
      assert rest[j] in rest;
    }
  }

  lemma ConsIncreasing(x: nat, xs: seq<nat>)
    requires StrictlyIncreasing(xs)
    requires forall j :: 0 <= j < |xs| ==> x < xs[j]
    ensures StrictlyIncreasing([x] + xs)
  {
    var r := [x] + xs;
    forall i, j | 0 <= i < j < |r| ensures r[i] < r[j] {
      assert r[j] == xs[j - 1];
      if i > 0 {
        assert r[i] == xs[i - 1];
      }
    }
  }

  /** A non-empty set of ids has a least element. */
  function MinId(ids: set<nat>): (m: nat)
    requires ids != {}
    ensures m in ids && forall x :: x in ids ==> m <= x
  {
    var hi := Model.MaxId(ids);
    LeastBelow(ids, hi)
  }

  /** The least id of `ids` that is at most `bound`, found by counting down. */
  function LeastBelow(ids: set<nat>, bound: nat): (m: nat)
    requires exists x :: x in ids && x <= bound
    ensures m in ids && m <= bound && forall x :: x in ids && x <= bound ==> m <= x
    decreases bound
  {
    if bound == 0 then 0
    else if exists x :: x in ids && x <= bound - 1 then LeastBelow(ids, bound - 1)
    else bound
  }

  // ---------------------------------------------------------------------------
  // Records
  // ---------------------------------------------------------------------------

  /** The task fields the exporter reads. */
  datatype BoardTask = BoardTask(
    name: string,
    description: Option<string>,
    notes: Option<seq<string>>,
    dueTime: Option<Model.Time>,
    completedTime: Option<Model.Time>,
    createdTime: Model.Time,
    modifiedTime: Option<Model.Time>,
    projectId: Option<nat>,
    firstStartedTime: Option<Model.Time>,
    status: TaskStatus,
    tags: Option<set<string>>,
    links: Option<set<string>>,
    priority: real,
    expectedDifficulty: real,
    expectedDuration: Option<real>,
    extra: Option<Dict<string, Value>>)

  /** A Taskwarrior task; the optional fields copied from `extra` keep their raw values. */
  datatype TwTask = TwTask(
    id: int,
    description: string,
    annotations: Option<seq<string>>,
    depends: Value,
    due: Option<Model.Time>,
    end: Option<Model.Time>,
    entry: Option<Model.Time>,
    imask: Value,
    mask: Value,
    modified: Option<Model.Time>,
    parent: Value,
    project: Option<string>,
    recur: Value,
    scheduled: Value,
    start: Option<Model.Time>,
    status: Option<string>,
    tags: Option<seq<string>>,
    until: Value,
    uuid: Value,
    wait: Value,
    udas: Option<Dict<string, Value>>)

  datatype ExportError = ProjectKeyError(projectId: nat)

  // ---------------------------------------------------------------------------
  // convert_task (daikanban/ext/taskwarrior.py:75-117)
  // ---------------------------------------------------------------------------

  /** The keys of the core data record built for each task. */
  const DataKeys: seq<string> := [
    "id", "annotations", "description", "due", "end", "entry", "modified", "project", "start",
    "status", "tags", "depends", "parent", "imask", "mask", "recur", "scheduled", "until",
    "uuid", "wait"]

  /** The keys of the UDAs every exported task carries, in order. */
  const BuiltinUdaKeys: seq<string> :=
    ["long", "expected_difficulty", "expected_duration", "priority", "project_id", "links"]

  function OptStr(x: Option<string>): Value {
    if x.Some? then VStr(x.value) else VNone
  }

  function OptNum(x: Option<real>): Value {
    if x.Some? then VNum(x.value) else VNone
  }

  function OptId(x: Option<nat>): Value {
    if x.Some? then VInt(x.value) else VNone
  }

  function OptStrList(x: Option<seq<string>>): Value {
    if x.Some? then VList(seq(|x.value|, i requires 0 <= i < |x.value| => VStr(x.value[i]))) else VNone
  }

  /** `extra.get(key)`. */
  function ExtraGet(extra: Dict<string, Value>, key: string): Value {
    if extra == [] then VNone
    else if extra[0].0 == key then extra[0].1
    else ExtraGet(extra[1..], key)
  }

  /** `extra.get(key)` is the dict lookup, with None for a missing key. */
  lemma {:induction false} ExtraGetIsGet(extra: Dict<string, Value>, key: string)
    ensures ExtraGet(extra, key) == Get(extra, key).GetOr(VNone)
  {
    if extra != [] && extra[0].0 != key {
      ExtraGetIsGet(extra[1..], key);
    }
  }

  /** The entries of `extra` whose key is not in `excluded`, in order. */
  function ExtraEntries(extra: Dict<string, Value>, excluded: seq<string>): Dict<string, Value> {
    if extra == [] then []
    else if extra[0].0 in excluded then ExtraEntries(extra[1..], excluded)
    else [extra[0]] + ExtraEntries(extra[1..], excluded)
  }

  /** The kept entries stay in their original order: the filter distributes over
      concatenation. */
  lemma {:induction false} ExtraEntriesAppend(a: Dict<string, Value>, b: Dict<string, Value>, excluded: seq<string>)
    ensures ExtraEntries(a + b, excluded) == ExtraEntries(a, excluded) + ExtraEntries(b, excluded)
  {
    if a == [] {
      assert a + b == b;
    } else {
      assert (a + b)[0] == a[0];
      assert (a + b)[1..] == a[1..] + b;
      ExtraEntriesAppend(a[1..], b, excluded);
    }
  }

  /** Exactly the entries of `extra` with a key outside `excluded` are kept, and keys that
      were distinct stay distinct. */
  lemma {:induction false} ExtraEntriesSpec(extra: Dict<string, Value>, excluded: seq<string>)
    ensures forall e :: e in ExtraEntries(extra, excluded) <==> e in extra && e.0 !in excluded
    ensures DistinctKeys(extra) ==> DistinctKeys(ExtraEntries(extra, excluded))
  {
    if extra != [] {
      var rest := ExtraEntries(extra[1..], excluded);
      ExtraEntriesSpec(extra[1..], excluded);
      assert forall e :: e in extra <==> e == extra[0] || e in extra[1..];
      if extra[0].0 !in excluded && DistinctKeys(extra) {
        forall e | e in rest ensures e.0 != extra[0].0 {
          var j :| 0 <= j < |extra[1..]| && extra[1..][j] == e;
          assert extra[j + 1] == e;
        }
      }
    }
  }

  /** The UDAs of a task: the built-in ones, then those of `extra` that would shadow neither a
      core field nor a built-in UDA. */
  function Udas(task: BoardTask): Dict<string, Value> {
    BuiltinUdas(task) + ExtraEntries(task.extra.GetOr([]), DataKeys + BuiltinUdaKeys)
  }

  /** The UDAs every exported task carries, keyed by `BuiltinUdaKeys`. */
  function BuiltinUdas(task: BoardTask): Dict<string, Value> {
    [("long", OptStr(task.description)),
     ("expected_difficulty", VNum(task.expectedDifficulty)),
     ("expected_duration", OptNum(task.expectedDuration)),
     ("priority", VNum(task.priority)),
     ("project_id", OptId(task.projectId)),
     ("links", OptStrList(SortedOrNone(task.links)))]
  }

  /** Converts one board task; a project id missing from the board is a key error. */
  function ConvertTask(projects: map<nat, Model.Project>, id: nat, task: BoardTask): (r: Result<TwTask, ExportError>)
    ensures r.Err? <==> task.projectId.Some? && task.projectId.value !in projects
    ensures r.Err? ==> r.error == ProjectKeyError(task.projectId.value)
    ensures r.Ok? ==> r.value.id == id
  {
    var extra := task.extra.GetOr([]);
    if task.projectId.Some? && task.projectId.value !in projects then Err(ProjectKeyError(task.projectId.value))
    else
      var project := if task.projectId.None? then None else Some(projects[task.projectId.value].name);
      Ok(TwTask(
        id := id,
        description := task.name,
        annotations := task.notes,
        depends := ExtraGet(extra, "depends"),
        due := task.dueTime,
        end := task.completedTime,
        entry := Some(task.createdTime),
        imask := ExtraGet(extra, "imask"),
        mask := ExtraGet(extra, "mask"),
        modified := task.modifiedTime,
        parent := ExtraGet(extra, "parent"),
        project := project,
        recur := ExtraGet(extra, "recur"),
        scheduled := ExtraGet(extra, "scheduled"),
        start := task.firstStartedTime,
        status := Some(if task.status == Complete then "completed" else "pending"),
        tags := SortedOrNone(task.tags),
        until := ExtraGet(extra, "until"),
        uuid := ExtraGet(extra, "uuid"),
        wait := ExtraGet(extra, "wait"),
        udas := Some(Udas(task))))
  }

  /** A converted record keeps the task's name, notes, times and project name, reports
      'completed' exactly for complete tasks, sorts the tags, takes the remaining Taskwarrior
      fields from `extra` by dict lookup and carries the task's UDAs. */
  lemma ConvertTaskFields(projects: map<nat, Model.Project>, id: nat, task: BoardTask)
    requires ConvertTask(projects, id, task).Ok?
    ensures var tw := ConvertTask(projects, id, task).value;
      && tw.description == task.name
      && (tw.project.None? <==> task.projectId.None?)
      && (task.projectId.Some? ==> tw.project == Some(projects[task.projectId.value].name))
      && tw.status == Some(if task.status == Complete then "completed" else "pending")
      && tw.tags == SortedOrNone(task.tags)
      && tw.entry == Some(task.createdTime) && tw.end == task.completedTime
      && tw.start == task.firstStartedTime && tw.due == task.dueTime
      && tw.udas == Some(Udas(task))
      && tw.annotations == task.notes && tw.modified == task.modifiedTime
      && var extra := task.extra.GetOr([]);
      && tw.depends == Get(extra, "depends").GetOr(VNone)
      && tw.parent == Get(extra, "parent").GetOr(VNone)
      && tw.imask == Get(extra, "imask").GetOr(VNone)
      && tw.mask == Get(extra, "mask").GetOr(VNone)
      && tw.recur == Get(extra, "recur").GetOr(VNone)
      && tw.scheduled == Get(extra, "scheduled").GetOr(VNone)
      && tw.until == Get(extra, "until").GetOr(VNone)
      && tw.uuid == Get(extra, "uuid").GetOr(VNone)
      && tw.wait == Get(extra, "wait").GetOr(VNone)
  {
    var extra := task.extra.GetOr([]);
    ExtraGetIsGet(extra, "depends");
    ExtraGetIsGet(extra, "parent");
    ExtraGetIsGet(extra, "imask");
    ExtraGetIsGet(extra, "mask");
    ExtraGetIsGet(extra, "recur");
    ExtraGetIsGet(extra, "scheduled");
    ExtraGetIsGet(extra, "until");
    ExtraGetIsGet(extra, "uuid");
    ExtraGetIsGet(extra, "wait");
  }

  /** A fixed prefix followed by the entries of `extra` the prefix's keys exclude: every
      entry after the prefix comes from `extra` under a non-excluded key, and the whole dict
      has distinct keys when the prefix and `extra` do. */
  lemma {:induction false} PrefixThenExtra(prefix: Dict<string, Value>, extra: Dict<string, Value>, excluded: seq<string>)
    requires forall i :: 0 <= i < |prefix| ==> prefix[i].0 in excluded
    ensures forall i :: |prefix| <= i < |prefix + ExtraEntries(extra, excluded)| ==>
      (prefix + ExtraEntries(extra, excluded))[i] in extra && (prefix + ExtraEntries(extra, excluded))[i].0 !in excluded
    ensures DistinctKeys(prefix) && DistinctKeys(extra) ==> DistinctKeys(prefix + ExtraEntries(extra, excluded))
  {
    var rest := ExtraEntries(extra, excluded);
    var u := prefix + rest;
    ExtraEntriesSpec(extra, excluded);
    forall i | |prefix| <= i < |u| ensures u[i] in extra && u[i].0 !in excluded {
      assert u[i] == rest[i - |prefix|];
    }
    if DistinctKeys(prefix) && DistinctKeys(extra) {
      forall i, j | 0 <= i < j < |u| ensures u[i].0 != u[j].0 {
        if j >= |prefix| {
          assert u[j] == rest[j - |prefix|];
          if i < |prefix| {
            assert u[i] == prefix[i];
          } else {
            assert u[i] == rest[i - |prefix|];
          }
        }
      }
    }
  }

  /** No two built-in UDAs share a key (their keys even differ in length). */
  lemma BuiltinUdasDistinct(task: BoardTask)
    ensures DistinctKeys(BuiltinUdas(task))
  {
    var b := BuiltinUdas(task);
    forall i, j | 0 <= i < j < |b| ensures b[i].0 != b[j].0 {
      assert |b[i].0| != |b[j].0|;
    }
  }

  /** The built-in UDAs come first, in order, and no key of `extra` overrides them or a core
      field: every later UDA is an entry of `extra` whose key is neither. With a proper dict
      as `extra`, the UDA keys are distinct. */
  lemma UdasLayout(task: BoardTask)
    ensures |Udas(task)| >= 6 && Keys(Udas(task))[..6] == BuiltinUdaKeys
    ensures Udas(task)[3] == ("priority", VNum(task.priority))
    ensures forall i :: 6 <= i < |Udas(task)| ==>
      Udas(task)[i] in task.extra.GetOr([]) && Udas(task)[i].0 !in DataKeys && Udas(task)[i].0 !in BuiltinUdaKeys
    ensures DistinctKeys(task.extra.GetOr([])) ==> DistinctKeys(Udas(task))
  {
    var b := BuiltinUdas(task);
    var excluded := DataKeys + BuiltinUdaKeys;
    assert Keys(b) == BuiltinUdaKeys;
    forall i | 0 <= i < |b| ensures b[i].0 in excluded {
      assert excluded[|DataKeys| + i] == b[i].0;
    }
    BuiltinUdasDistinct(task);
    PrefixThenExtra(b, task.extra.GetOr([]), excluded);
    assert Keys(Udas(task))[..6] == Keys(b);
  }

  lemma ExtraCannotOverridePriority(task: BoardTask, v: Value)
    requires task.extra == Some([("priority", v), ("estimate", VInt(5))])
    ensures Udas(task) == [
      ("long", OptStr(task.description)),
      ("expected_difficulty", VNum(task.expectedDifficulty)),
      ("expected_duration", OptNum(task.expectedDuration)),
      ("priority", VNum(task.priority)),
      ("project_id", OptId(task.projectId)),
      ("links", OptStrList(SortedOrNone(task.links))),
      ("estimate", VInt(5))]
  {
    var extra := task.extra.value;
    assert "priority" in DataKeys + BuiltinUdaKeys by {
      assert (DataKeys + BuiltinUdaKeys)[23] == "priority";
    }
    assert "estimate" !in DataKeys + BuiltinUdaKeys;
    assert extra[1..][1..] == [];
    assert ExtraEntries(extra[1..], DataKeys + BuiltinUdaKeys) == [("estimate", VInt(5))];
  }

  // ---------------------------------------------------------------------------
  // convert_from_board (daikanban/ext/taskwarrior.py:119-125)
  // ---------------------------------------------------------------------------

  /** The exported list holds, in order, the conversion of each task of the board. */
  predicate ExportsInOrder(projects: map<nat, Model.Project>, tasks: map<nat, BoardTask>,
                           ids: seq<nat>, twTasks: seq<TwTask>)
  {
    && |twTasks| <= |ids|
    && (forall i :: 0 <= i < |ids| ==> ids[i] in tasks)
    && forall i :: 0 <= i < |twTasks| ==>
         twTasks[i].id == ids[i] && Ok(twTasks[i]) == ConvertTask(projects, ids[i], tasks[ids[i]])
  }

  lemma ExportStep(projects: map<nat, Model.Project>, tasks: map<nat, BoardTask>,
                   ids: seq<nat>, twTasks: seq<TwTask>, next: TwTask)
    requires ExportsInOrder(projects, tasks, ids, twTasks) && |twTasks| < |ids|
    requires Ok(next) == ConvertTask(projects, ids[|twTasks|], tasks[ids[|twTasks|]])
    ensures ExportsInOrder(projects, tasks, ids, twTasks + [next])
  {
    var k := |twTasks|;
    assert next.id == ids[k];
    var extended := twTasks + [next];
    forall i | 0 <= i < |extended|
      ensures extended[i].id == ids[i] && Ok(extended[i]) == ConvertTask(projects, ids[i], tasks[ids[i]])
    {
      if i < k {
        assert extended[i] == twTasks[i];
      }
    }
  }

  /** A successful export: one record per task, in strictly ascending id order, each the
      conversion of the task with its id. */
  predicate ExportSucceeded(projects: map<nat, Model.Project>, tasks: map<nat, BoardTask>, twTasks: seq<TwTask>) {
    && |twTasks| == |tasks|
    && (forall id :: id in tasks ==> ConvertTask(projects, id, tasks[id]).Ok?)
    && (forall i, j :: 0 <= i < j < |twTasks| ==> twTasks[i].id < twTasks[j].id)
    && (forall id :: id in tasks ==> exists i :: 0 <= i < |twTasks| && twTasks[i].id == id)
    && (forall i :: 0 <= i < |twTasks| ==>
          0 <= twTasks[i].id && twTasks[i].id as nat in tasks
          && Ok(twTasks[i]) == ConvertTask(projects, twTasks[i].id as nat, tasks[twTasks[i].id as nat]))
  }

  /** A complete export in sorted id order lists each task once, by ascending id. */
  lemma ExportComplete(projects: map<nat, Model.Project>, tasks: map<nat, BoardTask>,
                       ids: seq<nat>, twTasks: seq<TwTask>)
    requires ids == SortedIds(tasks.Keys)
    requires ExportsInOrder(projects, tasks, ids, twTasks) && |twTasks| == |ids|
    ensures ExportSucceeded(projects, tasks, twTasks)
  {
    SortedIdsSpec(tasks.Keys);
    forall id | id in tasks
      ensures ConvertTask(projects, id, tasks[id]).Ok?
      ensures exists i :: 0 <= i < |twTasks| && twTasks[i].id == id
    {
      var i :| 0 <= i < |ids| && ids[i] == id;
      assert twTasks[i].id == id;
    }
  }

  /** A failure at position `k` of the sorted ids is the first failure by id. */
  lemma ExportFailure(projects: map<nat, Model.Project>, tasks: map<nat, BoardTask>,
                      ids: seq<nat>, twTasks: seq<TwTask>)
    requires ids == SortedIds(tasks.Keys)
    requires ExportsInOrder(projects, tasks, ids, twTasks) && |twTasks| < |ids|
    ensures forall other :: other in tasks && other < ids[|twTasks|] ==> ConvertTask(projects, other, tasks[other]).Ok?
  {
    SortedIdsSpec(tasks.Keys);
    var k := |twTasks|;
    forall other | other in tasks && other < ids[k]
      ensures ConvertTask(projects, other, tasks[other]).Ok?
    {
      assert other in ids;
      var i :| 0 <= i < |ids| && ids[i] == other;
      IncreasingIndexOrder(ids, i, k);
      assert Ok(twTasks[i]) == ConvertTask(projects, ids[i], tasks[ids[i]]);
    }
  }

  /** In a strictly increasing list, a smaller element sits at a smaller index. */
  lemma IncreasingIndexOrder(xs: seq<nat>, i: nat, k: nat)
    requires StrictlyIncreasing(xs) && i < |xs| && k < |xs| && xs[i] < xs[k]
    ensures i < k
  {
  }

  /** `id` is the least task id whose conversion fails. */
  predicate FirstFailure(projects: map<nat, Model.Project>, tasks: map<nat, BoardTask>, id: nat) {
    && id in tasks
    && ConvertTask(projects, id, tasks[id]).Err?
    && forall other :: other in tasks && other < id ==> ConvertTask(projects, other, tasks[other]).Ok?
  }

  /** Converts every task of the board, in ascending id order; the first task whose project
      is missing stops the export with its key error. */
  method ConvertFromBoard(projects: map<nat, Model.Project>, tasks: map<nat, BoardTask>)
    returns (r: Result<seq<TwTask>, ExportError>)
    ensures r.Ok? ==> ExportSucceeded(projects, tasks, r.value)
    ensures r.Err? ==> exists id :: FirstFailure(projects, tasks, id) && Err(r.error) == ConvertTask(projects, id, tasks[id])
  {
    var ids := SortedIds(tasks.Keys);
    SortedIdsSpec(tasks.Keys);
    var twTasks: seq<TwTask> := [];
    for k := 0 to |ids|
      invariant |twTasks| == k
      invariant ExportsInOrder(projects, tasks, ids, twTasks)
    {
      var converted := ConvertTask(projects, ids[k], tasks[ids[k]]);
      if converted.Err? {
        ExportFailure(projects, tasks, ids, twTasks);
        assert FirstFailure(projects, tasks, ids[k]);
        return Err(converted.error);
      }
      ExportStep(projects, tasks, ids, twTasks, converted.value);
      twTasks := twTasks + [converted.value];
    }
    ExportComplete(projects, tasks, ids, twTasks);
    return Ok(twTasks);
  }

  // ---------------------------------------------------------------------------
  // TwTask.to_dict (daikanban/ext/taskwarrior.py:49-56)
  // ---------------------------------------------------------------------------

  /** The UDA entries that `to_dict` adds to `d`: those whose key `d` lacks and whose value is
      not None, in UDA order. */
  function NewUdaEntries(udas: Dict<string, Value>, d: Dict<string, Value>): (r: Dict<string, Value>)
    ensures forall e :: e in r <==> e in udas && e.0 !in Keys(d) && e.1 != VNone
  {
    if udas == [] then []
    else
      var rest := NewUdaEntries(udas[1..], d);
      assert forall e :: e in udas <==> e == udas[0] || e in udas[1..];
      if udas[0].0 !in Keys(d) && udas[0].1 != VNone then [udas[0]] + rest else rest
  }

  /** The added UDAs keep their original order: the filter distributes over concatenation. */
  lemma {:induction false} NewUdaEntriesAppend(a: Dict<string, Value>, b: Dict<string, Value>, d: Dict<string, Value>)
    ensures NewUdaEntries(a + b, d) == NewUdaEntries(a, d) + NewUdaEntries(b, d)
  {
    if a == [] {
      assert a + b == b;
    } else {
      assert (a + b)[0] == a[0];
      assert (a + b)[1..] == a[1..] + b;
      NewUdaEntriesAppend(a[1..], b, d);
    }
  }

  /** The record as a dict: the generic field dict `base` without its 'udas' entry, followed by
      the UDAs that neither clash with one of its keys nor are None. */
  method ToDict(udas: Option<Dict<string, Value>>, base: Dict<string, Value>) returns (d: Dict<string, Value>)
    requires DistinctKeys(base)
    requires udas.Some? ==> DistinctKeys(udas.value)
    ensures d == Remove(base, "udas") + NewUdaEntries(udas.GetOr([]), Remove(base, "udas"))
  {
    d := base;
    if "udas" in Keys(d) {
      d := Remove(d, "udas");
    } else {
      RemoveAbsent(base, "udas");
    }
    if udas.Some? && udas.value != [] {
      d := UpdateWithNewUdas(d, udas.value);
    } else {
      assert d + NewUdaEntries([], d) == d;
    }
  }

  /** `d.update(...)` with the UDAs new to `core`, one assignment per UDA in order. */
  method UpdateWithNewUdas(core: Dict<string, Value>, udas: Dict<string, Value>) returns (d: Dict<string, Value>)
    requires DistinctKeys(udas)
    ensures d == core + NewUdaEntries(udas, core)
  {
    d := core;
    for i := 0 to |udas|
      invariant d == core + NewUdaEntries(udas[..i], core)
    {
      var key, val := udas[i].0, udas[i].1;
      NewUdaEntriesSnoc(udas, i, core);
      if key !in Keys(core) && val != VNone {
        NewUdaKeyFresh(udas, i, core);
        d := Put(d, key, val);
      }
    }
    assert udas[..|udas|] == udas;
  }

  lemma {:induction false} NewUdaEntriesSnoc(udas: Dict<string, Value>, i: nat, d: Dict<string, Value>)
    requires i < |udas|
    ensures NewUdaEntries(udas[..i + 1], d)
         == NewUdaEntries(udas[..i], d) + (if udas[i].0 !in Keys(d) && udas[i].1 != VNone then [udas[i]] else [])
    decreases i
  {
    if i > 0 {
      assert udas[..i + 1][1..] == udas[1..][..i];
      assert udas[..i][1..] == udas[1..][..i - 1];
      assert udas[..i + 1][0] == udas[..i][0];
      NewUdaEntriesSnoc(udas[1..], i - 1, d);
    } else {
      assert udas[..1][1..] == [];
    }
  }

  /** With distinct UDA keys, the next UDA's key is not yet in the dict being built. */
  lemma NewUdaKeyFresh(udas: Dict<string, Value>, i: nat, core: Dict<string, Value>)
    requires DistinctKeys(udas) && i < |udas| && udas[i].0 !in Keys(core)
    ensures udas[i].0 !in Keys(core + NewUdaEntries(udas[..i], core))
  {
    var added := NewUdaEntries(udas[..i], core);
    KeysAppend(core, added);
  }

  /** No entry of the generic dict is overridden, the 'udas' entry is gone, and a None UDA is
      never added. */
  lemma ToDictKeepsBase(udas: Dict<string, Value>, base: Dict<string, Value>)
    requires DistinctKeys(base)
    ensures var d := Remove(base, "udas") + NewUdaEntries(udas, Remove(base, "udas"));
      && (forall e :: e in base && e.0 != "udas" ==> e in d[..|Remove(base, "udas")|])
      && (forall i :: |Remove(base, "udas")| <= i < |d| ==> d[i].1 != VNone && d[i] in udas)
      && ("udas" in Keys(d) ==> exists e :: e in udas && e.0 == "udas")
  {
    var core := Remove(base, "udas");
    var d := core + NewUdaEntries(udas, core);
    assert d[..|core|] == core;
    forall i | |core| <= i < |d| ensures d[i].1 != VNone && d[i] in udas {
      assert d[i] in NewUdaEntries(udas, core);
    }
    if "udas" in Keys(d) {
      var j :| 0 <= j < |d| && Keys(d)[j] == "udas";
      assert d[j].0 == "udas";
      if j >= |core| {
        assert d[j] in NewUdaEntries(udas, core);
      }
    }
  }
}
