/** The task lifecycle and the board store of daikanban/model.py.

    Times are integer clock ticks and the current time is an explicit `now` argument;
    durations (time worked, lead time) are tick differences. */
module Model {
  import opened Wrappers
  import opened Tasks

  // ---------------------------------------------------------------------------
  // Types (daikanban/model.py:22-31, 82-182)
  // ---------------------------------------------------------------------------

  /** Board-local ids are non-negative integers (`Field(ge=0)`). */
  type Id = nat

  type Time = int

  /** `Score`: a number between 0 and 10. */
  predicate IsScore(x: real) { 0.0 <= x <= 10.0 }

  datatype Project = Project(
    name: string,
    description: Option<string>,
    createdTime: Time,
    links: Option<set<string>>)

  datatype Log = Log(createdTime: Time, note: Option<string>, rating: Option<real>)

  datatype Task = Task(
    name: string,
    details: Option<string>,
    priority: real,
    expectedDifficulty: real,
    expectedDuration: Option<real>,
    dueDate: Option<Time>,
    projectId: Option<Id>,
    createdTime: Time,
    firstStartedTime: Option<Time>,
    lastStartedTime: Option<Time>,
    completedTime: Option<Time>,
    priorTimeWorked: Option<int>,
    tags: Option<set<string>>,
    links: Option<set<string>>,
    blockedBy: Option<set<Id>>,
    logs: seq<Log>)

  /** A task with every field at its default, created at `now`. */
  function NewTask(name: string, now: Time): (t: Task)
    ensures t.name == name && t.createdTime == now
    ensures Status(t) == Todo && t.priorTimeWorked.None?
  {
    Task(name, None, 3.0, 3.0, None, None, None, now, None, None, None, None, None, None, None, [])
  }

  datatype KanbanError =
    | ProjectNotFound(projectId: Id)
    | TaskNotFound(taskId: Id)
    | TaskStatusError(action: string, status: TaskStatus)
    | InconsistentTimes
    | MissingPriorTimeWorked
    | OutOfBounds(field: string)

  // ---------------------------------------------------------------------------
  // Derived status and metrics (daikanban/model.py:184-225)
  // ---------------------------------------------------------------------------

  /** The status, derived from the three optional timestamps in the order the source tests
      them. */
  function Status(t: Task): (s: TaskStatus)
    ensures s == Todo <==> t.firstStartedTime.None?
    ensures s == Active <==> t.firstStartedTime.Some? && t.lastStartedTime.Some? && t.completedTime.None?
    ensures s == Paused <==> t.firstStartedTime.Some? && t.lastStartedTime.None?
    ensures s == Complete <==> t.firstStartedTime.Some? && t.lastStartedTime.Some? && t.completedTime.Some?
  {
    if t.firstStartedTime.None? then Todo
    else if t.lastStartedTime.Some? && t.completedTime.None? then Active
    else if t.lastStartedTime.None? then Paused
    else if t.completedTime.None? then Active
    else Complete
  }

  /** Time worked before the last start, plus the time since the last start if there is one. */
  function TotalTimeWorked(t: Task, now: Time): int {
    var prior := t.priorTimeWorked.GetOr(0);
    if t.lastStartedTime.Some? then prior + (now - t.lastStartedTime.value) else prior
  }

  /** Elapsed time from first start to completion, defined for complete tasks only. */
  function LeadTime(t: Task): (r: Option<int>)
    ensures r.Some? <==> Status(t) == Complete
    ensures r.Some? ==> r.value == t.completedTime.value - t.firstStartedTime.value
  {
    if Status(t) == Complete then Some(t.completedTime.value - t.firstStartedTime.value) else None
  }

  /** Whether the completion time, or `now` while unfinished, is past the due date. */
  function IsOverdue(t: Task, now: Time): (r: bool)
    ensures t.dueDate.None? ==> !r
    ensures t.dueDate.Some? ==> (r <==> t.completedTime.GetOr(now) > t.dueDate.value)
  {
    if t.dueDate.None? then false
    else
      var evalDate := if t.completedTime.Some? then t.completedTime.value else now;
      evalDate > t.dueDate.value
  }

  /** Once overdue, an unfinished task stays overdue as time goes on; a finished task's
      verdict no longer depends on the time. */
  lemma OverdueMonotone(t: Task, now: Time, later: Time)
    requires now <= later
    ensures IsOverdue(t, now) ==> IsOverdue(t, later)
    ensures t.completedTime.Some? ==> IsOverdue(t, now) == IsOverdue(t, later)
  {
  }

  // ---------------------------------------------------------------------------
  // The validator (daikanban/model.py:227-241)
  // ---------------------------------------------------------------------------

  function OptSeq(x: Option<Time>): seq<Time> {
    if x.Some? then [x.value] else []
  }

  /** The timestamps that are set, in lifecycle order. */
  function Timeline(t: Task): seq<Time> {
    [t.createdTime] + OptSeq(t.firstStartedTime) + OptSeq(t.lastStartedTime) + OptSeq(t.completedTime)
  }

  predicate NonDecreasing(xs: seq<Time>) {
    forall i, j :: 0 <= i < j < |xs| ==> xs[i] <= xs[j]
  }

  /** A later stage is only recorded once the earlier stage is. */
  predicate StagesRecorded(t: Task) {
    && (t.lastStartedTime.Some? ==> t.firstStartedTime.Some?)
    && (t.completedTime.Some? ==> t.lastStartedTime.Some?)
  }

  /** created <= first_started <= last_started <= completed over the timestamps that are set. */
  predicate TimesOrdered(t: Task) {
    StagesRecorded(t) && NonDecreasing(Timeline(t))
  }

  /** A paused or complete task has a recorded prior time worked. */
  predicate PriorRecorded(t: Task) {
    Status(t) in {Paused, Complete} ==> t.priorTimeWorked.Some?
  }

  /** `check_consistent_times`: accepts the task exactly when its timestamps are ordered and a
      paused or complete task has a prior time worked; ordering failures are reported first. */
  function CheckConsistentTimes(t: Task): (r: Result<Task, KanbanError>)
    ensures r.Ok? <==> TimesOrdered(t) && PriorRecorded(t)
    ensures r.Ok? ==> r.value == t
    ensures !TimesOrdered(t) ==> r == Err(InconsistentTimes)
    ensures TimesOrdered(t) && !PriorRecorded(t) ==> r == Err(MissingPriorTimeWorked)
  {
    var r :=
      if t.firstStartedTime.Some? && t.firstStartedTime.value < t.createdTime then Err(InconsistentTimes)
      else if t.lastStartedTime.Some?
        && (t.firstStartedTime.None? || t.lastStartedTime.value < t.firstStartedTime.value)
      then Err(InconsistentTimes)
      else if t.completedTime.Some?
        && (t.lastStartedTime.None? || t.completedTime.value < t.lastStartedTime.value)
      then Err(InconsistentTimes)
      else if Status(t) in {Paused, Complete} && t.priorTimeWorked.None? then Err(MissingPriorTimeWorked)
      else Ok(t);
    ChecksMatchTimesOrdered(t);
    r
  }

  /** The three pairwise checks of the validator amount to the ordered timeline. */
  lemma ChecksMatchTimesOrdered(t: Task)
    ensures TimesOrdered(t) <==>
      && (t.firstStartedTime.Some? ==> t.firstStartedTime.value >= t.createdTime)
      && (t.lastStartedTime.Some? ==>
            t.firstStartedTime.Some? && t.lastStartedTime.value >= t.firstStartedTime.value)
      && (t.completedTime.Some? ==>
            t.lastStartedTime.Some? && t.completedTime.value >= t.lastStartedTime.value)
  {
    var tl := Timeline(t);
    if StagesRecorded(t) {
      if t.firstStartedTime.None? {
        assert tl == [t.createdTime];
      } else if t.lastStartedTime.None? {
        assert t.completedTime.None?;
        assert tl == [t.createdTime, t.firstStartedTime.value];
        assert NonDecreasing(tl) <==> tl[0] <= tl[1];
      } else if t.completedTime.None? {
        assert tl == [t.createdTime, t.firstStartedTime.value, t.lastStartedTime.value];
        assert NonDecreasing(tl) <==> tl[0] <= tl[1] <= tl[2];
      } else {
        assert tl == [t.createdTime, t.firstStartedTime.value, t.lastStartedTime.value, t.completedTime.value];
        assert NonDecreasing(tl) <==> tl[0] <= tl[1] <= tl[2] <= tl[3];
      }
    }
  }

  /** Bounds checked on the fields when a task is built (daikanban/model.py:22-31, 126-166). */
  predicate FieldsInBounds(t: Task) {
    && IsScore(t.priority)
    && IsScore(t.expectedDifficulty)
    && (t.expectedDuration.Some? ==> t.expectedDuration.value >= 0.0)
    && (t.priorTimeWorked.Some? ==> t.priorTimeWorked.value >= 0)
    && (forall i :: 0 <= i < |t.logs| && t.logs[i].rating.Some? ==> IsScore(t.logs[i].rating.value))
  }

  /** Building a Task: the field bounds first, then the model validator. */
  function ValidateTask(t: Task): (r: Result<Task, KanbanError>)
    ensures r.Ok? <==> FieldsInBounds(t) && TimesOrdered(t) && PriorRecorded(t)
    ensures r.Ok? ==> r.value == t
  {
    if !IsScore(t.priority) then Err(OutOfBounds("priority"))
    else if !IsScore(t.expectedDifficulty) then Err(OutOfBounds("expected_difficulty"))
    else if t.expectedDuration.Some? && t.expectedDuration.value < 0.0 then Err(OutOfBounds("expected_duration"))
    else if t.priorTimeWorked.Some? && t.priorTimeWorked.value < 0 then Err(OutOfBounds("prior_time_worked"))
    else if exists i :: 0 <= i < |t.logs| && t.logs[i].rating.Some? && !IsScore(t.logs[i].rating.value)
    then Err(OutOfBounds("logs"))
    else CheckConsistentTimes(t)
  }

  /** A freshly created task passes validation. */
  lemma NewTaskValid(name: string, now: Time)
    ensures ValidateTask(NewTask(name, now)) == Ok(NewTask(name, now))
  {
    var t := NewTask(name, now);
    assert Timeline(t) == [now];
  }

  // ---------------------------------------------------------------------------
  // Transitions (daikanban/model.py:243-271); none of them re-runs the validator
  // ---------------------------------------------------------------------------

  /** `started`: from todo only; both start times become `now`. */
  function StartedTask(t: Task, now: Time): (r: Result<Task, KanbanError>)
    ensures r.Ok? <==> Status(t) == Todo
    ensures r.Ok? ==> r.value == t.(firstStartedTime := Some(now), lastStartedTime := Some(now))
    ensures r.Err? ==> r.error == TaskStatusError("start", Status(t))
  {
    if Status(t) == Todo then Ok(t.(firstStartedTime := Some(now), lastStartedTime := Some(now)))
    else Err(TaskStatusError("start", Status(t)))
  }

  /** `completed`: from active only; only the completion time changes. */
  function CompletedTask(t: Task, now: Time): (r: Result<Task, KanbanError>)
    ensures r.Ok? <==> Status(t) == Active
    ensures r.Ok? ==> r.value == t.(completedTime := Some(now)) && Status(r.value) == Complete
    ensures r.Err? ==> r.error == TaskStatusError("complete", Status(t))
  {
    if Status(t) == Active then Ok(t.(completedTime := Some(now)))
    else Err(TaskStatusError("complete", Status(t)))
  }

  /** `paused`: from active only; the last start is cleared and the time worked so far is
      folded into the prior time worked. */
  function PausedTask(t: Task, now: Time): (r: Result<Task, KanbanError>)
    ensures r.Ok? <==> Status(t) == Active
    ensures r.Ok? ==> r.value == t.(lastStartedTime := None, priorTimeWorked := Some(TotalTimeWorked(t, now)))
    ensures r.Ok? ==> Status(r.value) == Paused
    ensures r.Err? ==> r.error == TaskStatusError("pause", Status(t))
  {
    if Status(t) == Active
    then Ok(t.(lastStartedTime := None, priorTimeWorked := Some(TotalTimeWorked(t, now))))
    else Err(TaskStatusError("pause", Status(t)))
  }

  /** `restarted`: from paused only; only the last start time changes. */
  function RestartedTask(t: Task, now: Time): (r: Result<Task, KanbanError>)
    ensures r.Ok? <==> Status(t) == Paused
    ensures r.Ok? ==> r.value == t.(lastStartedTime := Some(now))
    ensures r.Err? ==> r.error == TaskStatusError("restart", Status(t))
  {
    if Status(t) == Paused then Ok(t.(lastStartedTime := Some(now)))
    else Err(TaskStatusError("restart", Status(t)))
  }

  /** `now` is no earlier than any timestamp the task holds. */
  predicate NotBefore(now: Time, t: Task) {
    forall i :: 0 <= i < |Timeline(t)| ==> Timeline(t)[i] <= now
  }

  lemma NotBeforeFacts(now: Time, t: Task)
    requires NotBefore(now, t)
    ensures now >= t.createdTime
    ensures t.firstStartedTime.Some? ==> now >= t.firstStartedTime.value
    ensures t.lastStartedTime.Some? ==> now >= t.lastStartedTime.value
    ensures t.completedTime.Some? ==> now >= t.completedTime.value
  {
    var tl := Timeline(t);
    assert tl[0] == t.createdTime;
    if t.firstStartedTime.Some? {
      assert tl[1] == t.firstStartedTime.value;
    }
    if t.lastStartedTime.Some? {
      assert t.lastStartedTime.value in tl;
    }
    if t.completedTime.Some? {
      assert tl[|tl| - 1] == t.completedTime.value;
    }
  }

  /** With a clock that does not run backwards, each transition keeps the timestamp ordering
      and lands in its target status. The prior-time clause is not among what is kept: see
      CompletedValidIff. */
  lemma {:induction false} TransitionsKeepTimesOrdered(t: Task, now: Time)
    requires TimesOrdered(t) && NotBefore(now, t)
    ensures StartedTask(t, now).Ok? ==> TimesOrdered(StartedTask(t, now).value) && Status(StartedTask(t, now).value) == Active
    ensures CompletedTask(t, now).Ok? ==> TimesOrdered(CompletedTask(t, now).value)
    ensures PausedTask(t, now).Ok? ==> TimesOrdered(PausedTask(t, now).value)
    ensures RestartedTask(t, now).Ok? ==> TimesOrdered(RestartedTask(t, now).value) && Status(RestartedTask(t, now).value) == Active
  {
    NotBeforeFacts(now, t);
    ChecksMatchTimesOrdered(t);
    if Status(t) == Todo {
      ChecksMatchTimesOrdered(StartedTask(t, now).value);
    } else if Status(t) == Active {
      ChecksMatchTimesOrdered(CompletedTask(t, now).value);
      ChecksMatchTimesOrdered(PausedTask(t, now).value);
    } else if Status(t) == Paused {
      ChecksMatchTimesOrdered(RestartedTask(t, now).value);
    }
  }

  /** Starting, pausing and restarting a consistent task give a task the validator accepts. */
  lemma {:induction false} StartPauseRestartValid(t: Task, now: Time)
    requires CheckConsistentTimes(t).Ok? && NotBefore(now, t)
    ensures StartedTask(t, now).Ok? ==> CheckConsistentTimes(StartedTask(t, now).value).Ok?
    ensures PausedTask(t, now).Ok? ==> CheckConsistentTimes(PausedTask(t, now).value).Ok?
    ensures RestartedTask(t, now).Ok? ==> CheckConsistentTimes(RestartedTask(t, now).value).Ok?
  {
    TransitionsKeepTimesOrdered(t, now);
  }

  /** Completing a consistent active task gives a task the validator accepts exactly when a
      prior time worked was already recorded: `completed` does not set it. */
  lemma {:induction false} CompletedValidIff(t: Task, now: Time)
    requires Status(t) == Active && CheckConsistentTimes(t).Ok? && NotBefore(now, t)
    ensures CompletedTask(t, now).Ok?
    ensures CheckConsistentTimes(CompletedTask(t, now).value).Ok? <==> t.priorTimeWorked.Some?
  {
    TransitionsKeepTimesOrdered(t, now);
  }

  /** Starting a fresh task and completing it directly yields a complete task with no prior
      time worked, which the validator rejects. */
  lemma {:induction false} StartThenCompleteRejected(t: Task, t1: Time, t2: Time)
    requires Status(t) == Todo && CheckConsistentTimes(t).Ok? && t.priorTimeWorked.None?
    requires t.createdTime <= t1 <= t2
    ensures StartedTask(t, t1).Ok? && CompletedTask(StartedTask(t, t1).value, t2).Ok?
    ensures CheckConsistentTimes(CompletedTask(StartedTask(t, t1).value, t2).value) == Err(MissingPriorTimeWorked)
  {
    var s := StartedTask(t, t1).value;
    assert NotBefore(t1, t) by {
      ChecksMatchTimesOrdered(t);
      assert Timeline(t) == [t.createdTime];
    }
    TransitionsKeepTimesOrdered(t, t1);
    assert NotBefore(t2, s) by {
      assert Timeline(s) == [t.createdTime, t1, t1];
    }
    TransitionsKeepTimesOrdered(s, t2);
  }

  /** While paused, the total time worked stays what it was when the task was paused. */
  lemma PausedFreezesTotal(t: Task, now: Time, later: Time)
    requires Status(t) == Active
    ensures TotalTimeWorked(PausedTask(t, now).value, later) == TotalTimeWorked(t, now)
  {
  }

  /** After a restart the total grows from the paused total by the time since the restart. */
  lemma RestartedResumesTotal(t: Task, now: Time, later: Time)
    requires Status(t) == Paused
    ensures TotalTimeWorked(RestartedTask(t, now).value, later) == TotalTimeWorked(t, now) + (later - now)
  {
  }

  /** A fresh task run through start, pause, restart and complete at t1 <= t2 <= t3 <= t4 is
      complete, accepted by the validator, and at completion has worked (t2 - t1) + (t4 - t3). */
  lemma {:induction false} LifecycleRun(t: Task, t1: Time, t2: Time, t3: Time, t4: Time)
    requires Status(t) == Todo && CheckConsistentTimes(t).Ok? && t.priorTimeWorked.None?
    requires t.createdTime <= t1 <= t2 <= t3 <= t4
    ensures StartedTask(t, t1).Ok?
    ensures var a := StartedTask(t, t1).value;
      && PausedTask(a, t2).Ok?
      && var b := PausedTask(a, t2).value;
      && RestartedTask(b, t3).Ok?
      && var c := RestartedTask(b, t3).value;
      && CompletedTask(c, t4).Ok?
      && var d := CompletedTask(c, t4).value;
      && Status(d) == Complete
      && CheckConsistentTimes(d).Ok?
      && LeadTime(d) == Some(t4 - t1)
      && TotalTimeWorked(d, t4) == (t2 - t1) + (t4 - t3)
  {
    ChecksMatchTimesOrdered(t);
    assert Timeline(t) == [t.createdTime];
    var a := StartedTask(t, t1).value;
    TransitionsKeepTimesOrdered(t, t1);
    assert Timeline(a) == [t.createdTime, t1, t1];
    var b := PausedTask(a, t2).value;
    TransitionsKeepTimesOrdered(a, t2);
    assert Timeline(b) == [t.createdTime, t1];
    var c := RestartedTask(b, t3).value;
    TransitionsKeepTimesOrdered(b, t3);
    assert Timeline(c) == [t.createdTime, t1, t3];
    var d := CompletedTask(c, t4).value;
    TransitionsKeepTimesOrdered(c, t4);
    CompletedValidIff(c, t4);
  }

  // ---------------------------------------------------------------------------
  // Id allocation (daikanban/model.py:294-300)
  // ---------------------------------------------------------------------------

  /** A non-empty finite set of ids has a largest element. */
  predicate IsMaxOf(m: Id, keys: set<Id>) {
    m in keys && forall k :: k in keys ==> k <= m
  }

  lemma {:induction false} MaxExists(keys: set<Id>)
    requires keys != {}
    ensures exists m :: IsMaxOf(m, keys)
    decreases |keys|
  {
    var x :| x in keys;
    if keys == {x} {
      assert IsMaxOf(x, keys);
    } else {
      var rest := keys - {x};
      MaxExists(rest);
      var m :| IsMaxOf(m, rest);
      assert keys == rest + {x};
      if m < x {
        assert IsMaxOf(x, keys);
      } else {
        assert IsMaxOf(m, keys);
      }
    }
  }

  /** The largest id in use. */
  function MaxId(keys: set<Id>): (m: Id)
    requires keys != {}
    ensures m in keys && forall k :: k in keys ==> k <= m
  {
    MaxExists(keys);
    var m :| IsMaxOf(m, keys);
    m
  }

  /** One more than the largest id in use, or 0 for none: above every id in use, so gaps are
      never reused. */
  function NextId(keys: set<Id>): (id: Id)
    ensures id !in keys && forall k :: k in keys ==> k < id
    ensures keys == {} ==> id == 0
    ensures keys != {} ==> id - 1 in keys
  {
    if keys == {} then 0 else MaxId(keys) + 1
  }

  /** From tests/test_model.py: with ids 0 and 2 in use the next id is 3. */
  lemma NextIdSkipsGaps()
    ensures NextId({0}) == 1
    ensures NextId({0, 2}) == 3
  {
  }

  // ---------------------------------------------------------------------------
  // Keyword updates: `model_copy(update=kwargs)` replaces the given fields, unvalidated
  // ---------------------------------------------------------------------------

  datatype ProjectUpdate = ProjectUpdate(
    name: Option<string>,
    description: Option<Option<string>>,
    createdTime: Option<Time>,
    links: Option<Option<set<string>>>)
  {
    function ApplyTo(p: Project): Project {
      Project(name.GetOr(p.name), description.GetOr(p.description),
              createdTime.GetOr(p.createdTime), links.GetOr(p.links))
    }
  }

  datatype TaskUpdate = TaskUpdate(
    name: Option<string>,
    details: Option<Option<string>>,
    priority: Option<real>,
    expectedDifficulty: Option<real>,
    expectedDuration: Option<Option<real>>,
    dueDate: Option<Option<Time>>,
    projectId: Option<Option<Id>>,
    createdTime: Option<Time>,
    firstStartedTime: Option<Option<Time>>,
    lastStartedTime: Option<Option<Time>>,
    completedTime: Option<Option<Time>>,
    priorTimeWorked: Option<Option<int>>,
    tags: Option<Option<set<string>>>,
    links: Option<Option<set<string>>>,
    blockedBy: Option<Option<set<Id>>>,
    logs: Option<seq<Log>>)
  {
    function ApplyTo(t: Task): Task {
      Task(name.GetOr(t.name), details.GetOr(t.details), priority.GetOr(t.priority),
           expectedDifficulty.GetOr(t.expectedDifficulty), expectedDuration.GetOr(t.expectedDuration),
           dueDate.GetOr(t.dueDate), projectId.GetOr(t.projectId), createdTime.GetOr(t.createdTime),
           firstStartedTime.GetOr(t.firstStartedTime), lastStartedTime.GetOr(t.lastStartedTime),
           completedTime.GetOr(t.completedTime), priorTimeWorked.GetOr(t.priorTimeWorked),
           tags.GetOr(t.tags), links.GetOr(t.links), blockedBy.GetOr(t.blockedBy), logs.GetOr(t.logs))
    }
  }

  /** The task with `blocking` added to its blocking set (an absent or empty set starts empty). */
  function WithBlocker(t: Task, blocking: Id): (r: Task)
    ensures r.blockedBy.Some? && blocking in r.blockedBy.value
    ensures r.blockedBy == Some(t.blockedBy.GetOr({}) + {blocking})
    ensures r.(blockedBy := t.blockedBy) == t
  {
    var blockedBy := if t.blockedBy.Some? && t.blockedBy.value != {} then t.blockedBy.value else {};
    t.(blockedBy := Some(blockedBy + {blocking}))
  }

  /** Adding the same blocking task twice is the same as adding it once. */
  lemma WithBlockerIdempotent(t: Task, blocking: Id)
    ensures WithBlocker(WithBlocker(t, blocking), blocking) == WithBlocker(t, blocking)
  {
  }

  // ---------------------------------------------------------------------------
  // The board store (daikanban/model.py:274-351)
  // ---------------------------------------------------------------------------

  /** A database of projects and tasks, each keyed by its board-local id. */
  class DaiKanban {
    var name: string
    var description: Option<string>
    var projects: map<Id, Project>
    var tasks: map<Id, Task>
    const version: int

    constructor (name: string, description: Option<string>,
                 projects: map<Id, Project>, tasks: map<Id, Task>)
      ensures this.name == name && this.description == description
      ensures this.projects == projects && this.tasks == tasks && version == 0
    {
      this.name := name;
      this.description := description;
      this.projects := projects;
      this.tasks := tasks;
      this.version := 0;
    }

    function NewProjectId(): (id: Id)
      reads this
      ensures id !in projects && forall k :: k in projects ==> k < id
      ensures projects == map[] ==> id == 0
    {
      NextId(projects.Keys)
    }

    function NewTaskId(): (id: Id)
      reads this
      ensures id !in tasks && forall k :: k in tasks ==> k < id
      ensures tasks == map[] ==> id == 0
    {
      NextId(tasks.Keys)
    }

    /** Stores the project under a new id and returns that id. */
    method CreateProject(project: Project) returns (id: Id)
      modifies this`projects
      ensures id == NextId(old(projects).Keys) && id !in old(projects)
      ensures projects == old(projects)[id := project]
    {
      id := NewProjectId();
      projects := projects[id := project];
    }

    function GetProject(projectId: Id): (r: Result<Project, KanbanError>)
      reads this
      ensures r.Ok? <==> projectId in projects
      ensures r.Ok? ==> r.value == projects[projectId]
      ensures r.Err? ==> r.error == ProjectNotFound(projectId)
    {
      if projectId in projects then Ok(projects[projectId]) else Err(ProjectNotFound(projectId))
    }

    /** Replaces the given fields of a stored project; an unknown id changes nothing. */
    method UpdateProject(projectId: Id, update: ProjectUpdate) returns (r: Outcome<KanbanError>)
      modifies this`projects
      ensures projectId !in old(projects) ==> r == Fail(ProjectNotFound(projectId)) && projects == old(projects)
      ensures projectId in old(projects) ==>
        r == Pass && projects == old(projects)[projectId := update.ApplyTo(old(projects)[projectId])]
    {
      var proj := GetProject(projectId);
      if proj.Err? {
        return Fail(proj.error);
      }
      projects := projects[projectId := update.ApplyTo(proj.value)];
      r := Pass;
    }

    /** Removes a stored project; tasks referring to it keep their project id. */
    method DeleteProject(projectId: Id) returns (r: Outcome<KanbanError>)
      modifies this`projects
      ensures projectId !in old(projects) ==> r == Fail(ProjectNotFound(projectId)) && projects == old(projects)
      ensures projectId in old(projects) ==> r == Pass && projects == old(projects) - {projectId}
      ensures tasks == old(tasks)
    {
      if projectId !in projects {
        return Fail(ProjectNotFound(projectId));
      }
      projects := projects - {projectId};
      r := Pass;
    }

    /** Stores the task under a new id and returns that id. */
    method CreateTask(task: Task) returns (id: Id)
      modifies this`tasks
      ensures id == NextId(old(tasks).Keys) && id !in old(tasks)
      ensures tasks == old(tasks)[id := task]
    {
      id := NewTaskId();
      tasks := tasks[id := task];
    }

    function GetTask(taskId: Id): (r: Result<Task, KanbanError>)
      reads this
      ensures r.Ok? <==> taskId in tasks
      ensures r.Ok? ==> r.value == tasks[taskId]
      ensures r.Err? ==> r.error == TaskNotFound(taskId)
    {
      if taskId in tasks then Ok(tasks[taskId]) else Err(TaskNotFound(taskId))
    }

    /** Replaces the given fields of a stored task; an unknown id changes nothing. */
    method UpdateTask(taskId: Id, update: TaskUpdate) returns (r: Outcome<KanbanError>)
      modifies this`tasks
      ensures taskId !in old(tasks) ==> r == Fail(TaskNotFound(taskId)) && tasks == old(tasks)
      ensures taskId in old(tasks) ==>
        r == Pass && tasks == old(tasks)[taskId := update.ApplyTo(old(tasks)[taskId])]
    {
      var task := GetTask(taskId);
      if task.Err? {
        return Fail(task.error);
      }
      tasks := tasks[taskId := update.ApplyTo(task.value)];
      r := Pass;
    }

    /** Removes a stored task; other tasks' blocking sets are not touched. */
    method DeleteTask(taskId: Id) returns (r: Outcome<KanbanError>)
      modifies this`tasks
      ensures taskId !in old(tasks) ==> r == Fail(TaskNotFound(taskId)) && tasks == old(tasks)
      ensures taskId in old(tasks) ==> r == Pass && tasks == old(tasks) - {taskId}
    {
      if taskId !in tasks {
        return Fail(TaskNotFound(taskId));
      }
      tasks := tasks - {taskId};
      r := Pass;
    }

    /** Records that `blockingTaskId` blocks `blockedTaskId`; both must exist, the blocking
        one is looked up first. */
    method AddBlockingTask(blockingTaskId: Id, blockedTaskId: Id) returns (r: Outcome<KanbanError>)
      modifies this`tasks
      ensures blockingTaskId !in old(tasks) ==> r == Fail(TaskNotFound(blockingTaskId)) && tasks == old(tasks)
      ensures blockingTaskId in old(tasks) && blockedTaskId !in old(tasks) ==>
        r == Fail(TaskNotFound(blockedTaskId)) && tasks == old(tasks)
      ensures blockingTaskId in old(tasks) && blockedTaskId in old(tasks) ==>
        r == Pass && tasks == old(tasks)[blockedTaskId := WithBlocker(old(tasks)[blockedTaskId], blockingTaskId)]
    {
      var blocking := GetTask(blockingTaskId);
      if blocking.Err? {
        return Fail(blocking.error);
      }
      var blocked := GetTask(blockedTaskId);
      if blocked.Err? {
        return Fail(blocked.error);
      }
      var blockedBy: set<Id> :=
        if blocked.value.blockedBy.Some? && blocked.value.blockedBy.value != {}
        then blocked.value.blockedBy.value else {};
      blockedBy := blockedBy + {blockingTaskId};
      tasks := tasks[blockedTaskId := blocked.value.(blockedBy := Some(blockedBy))];
      r := Pass;
    }
  }

  /** The id sequence of tests/test_model.py, and a project deleted twice. */
  method ProjectIdScenario() {
    var board := new DaiKanban("myboard", None, map[], map[]);
    assert board.NewProjectId() == 0;
    var id0 := board.CreateProject(Project("proj0", None, 0, None));
    assert id0 == 0 && board.NewProjectId() == 1;
    board.projects := board.projects[2 := Project("proj2", None, 0, None)];
    assert board.projects.Keys == {0, 2};
    var id3 := board.CreateProject(Project("proj3", None, 0, None));
    assert id3 == 3 && board.projects.Keys == {0, 2, 3};
    assert board.NewProjectId() == 4;
    var taskId := board.CreateTask(NewTask("mytask", 0).(projectId := Some(0)));
    var first := board.DeleteProject(0);
    assert first == Pass && board.tasks[taskId].projectId == Some(0);
    var second := board.DeleteProject(0);
    assert second == Fail(ProjectNotFound(0));
  }
}
