/** Task statuses, their colours, the default board columns and the registry of task
    scorers (daikanban/task.py). */
module Tasks {
  import opened Wrappers
  import opened Dicts

  /** Possible status a task can have. */
  datatype TaskStatus = Todo | Active | Paused | Complete {

    /** The string value of the enum member. */
    function Name(): string {
      match this
      case Todo => "todo"
      case Active => "active"
      case Paused => "paused"
      case Complete => "complete"
    }

    /** The rich colour associated with the status. */
    function Color(): string {
      if this == Todo then "bright_black"
      else if this == Active then "bright_red"
      else if this == Paused then "orange3"
      else "green"
    }
  }

  /** The colour table, and no two statuses share a colour. */
  lemma ColorTable()
    ensures Todo.Color() == "bright_black" && Active.Color() == "bright_red"
    ensures Paused.Color() == "orange3" && Complete.Color() == "green"
    ensures forall s, t: TaskStatus :: s != t ==> s.Color() != t.Color()
  {
  }

  /** Board columns, each listing the statuses shown in it, in column order. */
  type StatusGroups = Dict<string, seq<TaskStatus>>

  const DefaultTaskStatusGroups: StatusGroups :=
    [("todo", [Todo]), ("active", [Active, Paused]), ("complete", [Complete])]

  /** The names of the columns whose status list contains `s`, in column order. */
  function GroupsContaining(groups: StatusGroups, s: TaskStatus): (r: seq<string>)
    ensures forall g :: g in r ==> exists i :: 0 <= i < |groups| && groups[i].0 == g && s in groups[i].1
    ensures (exists i :: 0 <= i < |groups| && s in groups[i].1) ==> r != []
  {
    if groups == [] then []
    else
      var rest := GroupsContaining(groups[1..], s);
      assert forall i :: 0 <= i < |groups[1..]| ==> groups[1..][i] == groups[i + 1];
      (if s in groups[0].1 then [groups[0].0] else []) + rest
  }

  /** The default columns put every status in exactly one column; active and paused tasks
      share the 'active' column. */
  lemma DefaultGroupsPartition()
    ensures DistinctKeys(DefaultTaskStatusGroups)
    ensures GroupsContaining(DefaultTaskStatusGroups, Todo) == ["todo"]
    ensures GroupsContaining(DefaultTaskStatusGroups, Active) == ["active"]
    ensures GroupsContaining(DefaultTaskStatusGroups, Paused) == ["active"]
    ensures GroupsContaining(DefaultTaskStatusGroups, Complete) == ["complete"]
  {
  }

  /** Task fields prompted for when creating a new task. */
  const DefaultNewTaskFields: seq<string> :=
    ["name", "description", "project_id", "priority", "expected_duration", "due_date", "tags", "links"]

  const DefaultTaskScorerName: string := "priority-rate"

  /** The three scorer classes, each instance holding its default parameters. */
  datatype TaskScorer =
    | PriorityScorer(defaultPriority: real)
    | PriorityDifficultyScorer(defaultPriority: real, defaultDifficulty: real)
    | PriorityRateScorer(defaultPriority: real, defaultDuration: real)
  {
    function Name(): string {
      match this
      case PriorityScorer(_) => "priority"
      case PriorityDifficultyScorer(_, _) => "priority-difficulty"
      case PriorityRateScorer(_, _) => "priority-rate"
    }

    function Description(): string {
      match this
      case PriorityScorer(_) => "priority only"
      case PriorityDifficultyScorer(_, _) => "priority divided by difficulty"
      case PriorityRateScorer(_, _) => "priority divided by expected duration"
    }

    function Units(): string {
      match this
      case PriorityScorer(_) => "pri"
      case PriorityDifficultyScorer(_, _) => "pri/diff"
      case PriorityRateScorer(_, _) => "pri/day"
    }
  }

  /** The scorer classes, instantiated with their default arguments. */
  const TaskScorerClasses: seq<TaskScorer> :=
    [PriorityScorer(1.0), PriorityDifficultyScorer(1.0, 1.0), PriorityRateScorer(1.0, 4.0)]

  /** The registry keyed by each class's name; a later class with the same name wins. */
  function Registry(classes: seq<TaskScorer>): (r: map<string, TaskScorer>)
    ensures forall c :: c in classes ==> c.Name() in r
    ensures forall k :: k in r ==> exists c :: c in classes && c.Name() == k
  {
    if classes == [] then map[]
    else
      var init := classes[..|classes| - 1];
      var last := classes[|classes| - 1];
      assert forall c :: c in init ==> c in classes;
      assert forall c :: c in classes ==> c in init || c == last;
      Registry(init)[last.Name() := last]
  }

  /** Every registry entry is filed under its own scorer's name. */
  lemma {:induction false} RegistryKeyedByName(classes: seq<TaskScorer>)
    ensures forall k :: k in Registry(classes) ==> Registry(classes)[k].Name() == k
  {
    if classes != [] {
      RegistryKeyedByName(classes[..|classes| - 1]);
    }
  }

  const TaskScorers: map<string, TaskScorer> := Registry(TaskScorerClasses)

  /** The registry has exactly the keys 'priority', 'priority-difficulty' and
      'priority-rate', one per class, and the default scorer name is one of them. */
  lemma TaskScorersKeys()
    ensures TaskScorers.Keys == {"priority", "priority-difficulty", "priority-rate"}
    ensures TaskScorers["priority"] == PriorityScorer(1.0)
    ensures TaskScorers["priority-difficulty"] == PriorityDifficultyScorer(1.0, 1.0)
    ensures TaskScorers["priority-rate"] == PriorityRateScorer(1.0, 4.0)
    ensures DefaultTaskScorerName in TaskScorers
  {
    var cs := TaskScorerClasses;
    assert cs[..0] == [] && cs[..1][..0] == [];
    assert cs[..2][..1] == cs[..1] && cs[..3] == cs && cs[..3][..2] == cs[..2];
    assert Registry(cs[..1]) == map["priority" := PriorityScorer(1.0)];
    assert Registry(cs[..2]) == map["priority" := PriorityScorer(1.0),
                                    "priority-difficulty" := PriorityDifficultyScorer(1.0, 1.0)];
    assert TaskScorers == map["priority" := PriorityScorer(1.0),
                              "priority-difficulty" := PriorityDifficultyScorer(1.0, 1.0),
                              "priority-rate" := PriorityRateScorer(1.0, 4.0)];
  }

  datatype ConfigError = UnknownTaskScorer(name: string)

  /** Task configuration; `scorerName` passed `CheckScorer` when the value was built. */
  datatype TaskConfig = TaskConfig(newTaskFields: seq<string>, scorerName: string)

  /** The field validator on `scorer_name`: accepted exactly when it names a registered
      scorer, otherwise 'Unknown task scorer'. */
  function CheckScorer(scorerName: string): (r: Result<string, ConfigError>)
    ensures r.Ok? <==> scorerName in {"priority", "priority-difficulty", "priority-rate"}
    ensures r.Ok? ==> r.value == scorerName
    ensures r.Err? ==> r.error == UnknownTaskScorer(scorerName)
  {
    TaskScorersKeys();
    if scorerName !in TaskScorers then Err(UnknownTaskScorer(scorerName)) else Ok(scorerName)
  }

  /** Building a TaskConfig runs the validator. */
  function NewTaskConfig(newTaskFields: seq<string>, scorerName: string): (r: Result<TaskConfig, ConfigError>)
    ensures r.Ok? <==> scorerName in TaskScorers
    ensures r.Ok? ==> r.value.scorerName == scorerName && r.value.newTaskFields == newTaskFields
  {
    match CheckScorer(scorerName)
    case Ok(name) => Ok(TaskConfig(newTaskFields, name))
    case Err(e) => Err(e)
  }

  /** The default configuration, built as the dataclass defaults build it. */
  lemma DefaultTaskConfigValid()
    ensures NewTaskConfig(DefaultNewTaskFields, DefaultTaskScorerName)
         == Ok(TaskConfig(DefaultNewTaskFields, DefaultTaskScorerName))
  {
    TaskScorersKeys();
  }

  /** `TaskConfig.scorer`: the registry entry for the configured name, a scorer of that name. */
  function Scorer(config: TaskConfig): (s: TaskScorer)
    requires config.scorerName in TaskScorers
    ensures s in TaskScorers.Values && s.Name() == config.scorerName
  {
    RegistryKeyedByName(TaskScorerClasses);
    TaskScorers[config.scorerName]
  }
}
