# DaiKanban core, modelled in Dafny

DaiKanban is a terminal kanban board. A board holds projects and tasks, each under a
board-local integer id. A task's status (todo, active, paused, complete) is not stored. It is
derived from three optional timestamps: first started, last started and completed. The
transitions start, complete, pause and restart each return an updated copy of the task.

This project models the following parts of it:

- `model.dfy` (module `Model`, from `daikanban/model.py`):
  - the `Project`, `Log` and `Task` records;
  - the derived status, lead time, overdue test and total time worked;
  - the task validator, with its field bounds and timestamp ordering;
  - the four transitions;
  - the board store as the class `DaiKanban`. Its `projects` and `tasks` maps are updated in
    place by create, update, delete and add-blocking-task. New ids are one above the largest
    id in use.
- `tasks.dfy` (module `Tasks`, from `daikanban/task.py`):
  - statuses and their colours;
  - the default board columns;
  - the scorer registry and the scorer-name validator of the task configuration.
- `interface.py`'s non-interactive logic, in `interface.dfy` (module `Interface`):
  - resolving a project or task from an id or a name;
  - building the status-to-column and column-to-colour maps;
  - the prefix-abbreviation dispatch of a shell command line.
- `utils.dfy` (module `Utils`, from `daikanban/utils.py`): `prefix_match`,
  `convert_number_words_to_digits`, `to_snake_case`, `style_str` and `err_style`.
- `taskwarrior.dfy` (module `Taskwarrior`, from `daikanban/ext/taskwarrior.py`):
  - the conversion of one board task to a Taskwarrior record, including its UDAs (user-defined
    attributes);
  - the export of a whole board in ascending id order;
  - the record's dict form.
- `dicts.dfy` and `wrappers.dfy`:
  - Python dicts, as ordered association lists where order matters (`Dict`);
  - `Option`, `Result` and a pass/fail `Outcome` for operations that raise.

Modelling choices:

- Times are integer ticks, and the current time is a parameter `now`.
- Durations are differences of ticks.
- A method or function that raises in the source returns an `Err` or `Fail` carrying the error.
- A `model_copy(update=...)` with keyword arguments is a patch record whose `None` fields
  leave the field unchanged.

Two consequences of the code that a reader may not expect:

- `completed` does not record a prior time worked, and the validator requires one of complete
  tasks. So a task that is started and then completed directly is rejected when it is validated
  again (`Model.StartThenCompleteRejected`, `Model.CompletedValidIff`).
- Deleting a project leaves the tasks that refer to it untouched: their project ids still name
  the deleted project (`Model.DaiKanban.DeleteProject`, `Model.ProjectIdScenario`).

## Model

| member | source | states |
|---|---|---|
| Model.NewTask | daikanban/model.py:117-182 | a task built from a name gets the creation time, status todo and no prior time worked |
| Model.Status | daikanban/model.py:184-196 | four if-and-only-if characterisations: todo iff never started; active iff started, running and not completed; paused iff started and not running; complete iff started, running and completed |
| Model.LeadTime | daikanban/model.py:207-216 | defined exactly for complete tasks, and then completion minus first start |
| Model.IsOverdue | daikanban/model.py:218-225 | never overdue without a due date; otherwise overdue iff the completion time, or `now` when unfinished, is after the due date |
| Model.OverdueMonotone | daikanban/model.py:218-225 | an overdue unfinished task stays overdue later; a completed task's verdict does not depend on the time |
| Model.CheckConsistentTimes | daikanban/model.py:227-241 | accepts iff created <= first start <= last start <= completion with each stage present before the next, and paused/complete tasks have a prior time worked; ordering errors are reported before the missing prior time |
| Model.ChecksMatchTimesOrdered | daikanban/model.py:229-237 | the validator's three pairwise assertions are equivalent to the non-decreasing timeline |
| Model.ValidateTask | daikanban/model.py:126-166 | a task is accepted iff its scores lie in 0..10, durations are non-negative, log ratings are scores and its times are consistent |
| Model.NewTaskValid | daikanban/model.py:117-182 | a task with all defaults passes validation unchanged |
| Model.StartedTask | daikanban/model.py:243-250 | succeeds iff todo, setting both start times to `now` and nothing else; otherwise a status error naming the status |
| Model.CompletedTask | daikanban/model.py:252-257 | succeeds iff active, setting only the completion time, and the result is complete; otherwise a status error |
| Model.PausedTask | daikanban/model.py:259-264 | succeeds iff active, clearing the last start and folding the total time worked into the prior time; the result is paused; otherwise a status error |
| Model.RestartedTask | daikanban/model.py:266-271 | succeeds iff paused, setting only the last start time; otherwise a status error |
| Model.TransitionsKeepTimesOrdered | daikanban/model.py:243-271 | with a clock that does not run backwards, every successful transition keeps the timestamps ordered; start and restart make the task active |
| Model.StartPauseRestartValid | daikanban/model.py:243-271 | start, pause and restart of a task the validator accepts give a task it accepts |
| Model.CompletedValidIff | daikanban/model.py:252-257 | completing a valid active task gives a valid task iff a prior time worked was already recorded |
| Model.StartThenCompleteRejected | daikanban/model.py:238-257 | a fresh task that is started and then completed is rejected by the validator for its missing prior time worked |
| Model.PausedFreezesTotal | daikanban/model.py:198-205 | after a pause, the total time worked no longer grows |
| Model.RestartedResumesTotal | daikanban/model.py:198-205 | after a restart, the total grows from the paused total by the time since the restart |
| Model.LifecycleRun | daikanban/model.py:243-271 | start, pause, restart and complete at t1 <= t2 <= t3 <= t4 give a complete, valid task with lead time t4 - t1 and total time worked (t2 - t1) + (t4 - t3) |
| Model.NextId | daikanban/model.py:294-300 | the new id is unused and above every id in use, 0 for an empty map, and one more than an id in use otherwise |
| Model.NextIdSkipsGaps | tests/test_model.py:26-34 | with ids 0 and 2 in use the next id is 3; gaps are not reused |
| Model.WithBlocker | daikanban/model.py:349-351 | the blocking set becomes the old set, or the empty set when there was none, plus the id; no other field changes |
| Model.WithBlockerIdempotent | daikanban/model.py:349-351 | adding the same blocking task twice equals adding it once |
| Model.DaiKanban.constructor | daikanban/model.py:274-292 | a board holds the given name, description, projects and tasks, at version 0 |
| Model.DaiKanban.NewProjectId | daikanban/model.py:294-296 | an unused project id above all ids in use, 0 on an empty board |
| Model.DaiKanban.NewTaskId | daikanban/model.py:298-300 | an unused task id above all ids in use, 0 on an empty board |
| Model.DaiKanban.CreateProject | daikanban/model.py:302-306 | returns the new id, which was unused, and stores the project under it; nothing else changes |
| Model.DaiKanban.GetProject | daikanban/model.py:308-311 | the stored project iff the id is present, else a project-not-found error for that id |
| Model.DaiKanban.UpdateProject | daikanban/model.py:313-316 | an unknown id fails and changes nothing; a known one has exactly the given fields replaced |
| Model.DaiKanban.DeleteProject | daikanban/model.py:318-321 | an unknown id fails and changes nothing; a known one is removed; tasks are untouched |
| Model.DaiKanban.CreateTask | daikanban/model.py:323-327 | returns the new id, which was unused, and stores the task under it |
| Model.DaiKanban.GetTask | daikanban/model.py:329-332 | the stored task iff the id is present, else a task-not-found error for that id |
| Model.DaiKanban.UpdateTask | daikanban/model.py:334-337 | an unknown id fails and changes nothing; a known one has exactly the given fields replaced |
| Model.DaiKanban.DeleteTask | daikanban/model.py:339-342 | an unknown id fails and changes nothing; a known one is removed |
| Model.DaiKanban.AddBlockingTask | daikanban/model.py:344-351 | a missing blocking task is reported first, then a missing blocked task, each leaving the board unchanged; otherwise only the blocked task changes, gaining the blocker |
| Tasks.ColorTable | daikanban/task.py:30-40 | the colour of each status, and no two statuses share one |
| Tasks.DefaultGroupsPartition | daikanban/task.py:43-48 | the default columns have distinct names and place every status in exactly one column, paused with active |
| Tasks.Registry | daikanban/task.py:131-133 | every class is registered under its name and every key names some class |
| Tasks.RegistryKeyedByName | daikanban/task.py:131-133 | each registry entry is a scorer of the name it is filed under |
| Tasks.TaskScorersKeys | daikanban/task.py:80-133 | the registry has exactly the keys priority, priority-difficulty and priority-rate, with their default parameters; the default scorer name is registered |
| Tasks.CheckScorer | daikanban/task.py:148-154 | a scorer name is accepted unchanged iff it is one of the three registered names, otherwise an unknown-scorer error naming it |
| Tasks.NewTaskConfig | daikanban/task.py:136-154 | a configuration is built iff its scorer name is registered, keeping both fields |
| Tasks.DefaultTaskConfigValid | daikanban/task.py:136-146 | the default configuration passes its validator |
| Tasks.Scorer | daikanban/task.py:156-159 | the configured scorer is a registered scorer carrying the configured name |
| Utils.Strip | daikanban/interface.py:314-316 | no surrounding whitespace is left, and the result is empty iff the input is all whitespace |
| Utils.StripIsTrimmedSlice | daikanban/interface.py:314-316 | the result is the input with a run of whitespace cut from each end: a slice `s[i..j]` with only whitespace before `i` and after `j` |
| Utils.PrefixMatch | daikanban/utils.py:35-38 | true iff the token has at least `minlen` characters, is no longer than the target and is a prefix of it |
| Utils.ConvertNumberWordsToDigits | daikanban/utils.py:40-55 | the result is never longer than the input (each replacement is a single digit); the lemmas below pin the result |
| Utils.ConvertWordStep | daikanban/utils.py:40-55 | a whole word followed by a non-word character (or the end) becomes its digit when it is zero..nine and stays otherwise, and the rest is converted on its own |
| Utils.ConvertNonWordStep | daikanban/utils.py:40-55 | a leading non-word character is kept and the rest is converted on its own |
| Utils.ConvertWithoutNumberWords | daikanban/utils.py:40-55 | a string in which no whole word is zero..nine comes back unchanged |
| Utils.ConvertShortensNumberWord | daikanban/utils.py:40-55 | a whole number word anywhere makes the result strictly shorter |
| Utils.ConvertUnchangedIff | daikanban/utils.py:40-55 | the conversion leaves a string unchanged iff it has no whole number word |
| Utils.ConvertExampleOneDay | tests/test_utils.py:8-18 | 'one day' becomes '1 day' |
| Utils.ConvertExampleEmbedded | tests/test_utils.py:8-18 | 'zeroday' is left alone |
| Utils.ToSnakeCase | daikanban/utils.py:30-33 | the result holds only word characters and no upper-case letter |
| Utils.RemoveQuotes | daikanban/utils.py:32 | the result has no quote character and keeps every other character of the input; a quote-free string is unchanged |
| Utils.CollapseNonWord | daikanban/utils.py:33 | the result holds only word characters, and a string of word characters is unchanged |
| Utils.CollapseWordPrefix | daikanban/utils.py:33 | a leading run of word characters is kept as it is |
| Utils.RemoveQuotesAppend | daikanban/utils.py:32 | removing quotes works piecewise, so the other characters keep their order |
| Utils.CollapseSeparator | daikanban/utils.py:33 | a run of non-word characters before a word becomes a single '_' |
| Utils.ToSnakeCaseOfWord | daikanban/utils.py:30-33 | a run of word characters becomes its lower case |
| Utils.ToSnakeCaseJoin | daikanban/utils.py:30-33 | two words around a run of separators (no word character, no quote, no whitespace at its ends) become the two snake-cased words joined by one '_' |
| Utils.SnakeCaseFixedPoint | daikanban/utils.py:30-33 | a string of lower-case word characters is its own snake case |
| Utils.ToSnakeCaseIdempotent | daikanban/utils.py:30-33 | converting twice equals converting once |
| Utils.StyleStr | daikanban/utils.py:104-108 | the value sits between an opening '[bold C]' or '[not bold C]' tag and a closing '[/]' |
| Utils.StyleStrInjective | daikanban/utils.py:104-108 | equal styled strings with the same style come from equal values |
| Utils.ErrStyle | daikanban/utils.py:110-115 | the message is wrapped in '[not bold red]' and '[/]' with only its first character upper-cased |
| Interface.DecimalValueLeadingZero | daikanban/interface.py:318-322 | a leading zero does not change the id a digit string denotes |
| Interface.IndexOfName | daikanban/interface.py:323-325 | the first entry whose lower-cased name equals the key, or none when no entry matches |
| Interface.FindByName | daikanban/interface.py:323-326 | the scan returns an id iff some entry's lower-cased name is the key, and then the id of the first such entry |
| Interface.ParseIdOrName | daikanban/interface.py:312-326 | blank text gives no id; an all-digit text gives its id if present, else 'Invalid X ID.'; other text gives the id of the first entry with that name case-insensitively, else 'Invalid X name.' |
| Interface.Filter | daikanban/interface.py:629-631 | keeps exactly the listed statuses that are requested |
| Interface.FilterAppend | daikanban/interface.py:629-631 | filtering distributes over concatenation, so relative order is kept |
| Interface.FilterKeepsAll | daikanban/interface.py:629-631 | a list whose statuses are all requested is unchanged |
| Interface.FilterGroups | daikanban/interface.py:629-631 | filtering keeps every column and its name |
| Interface.ByStatusSpec | daikanban/interface.py:632-639 | a status is mapped iff some column lists it, and then to the last column listing it |
| Interface.ColorsSpec | daikanban/interface.py:633-637 | with distinct column names, a column has a colour iff it lists a status, and that colour is its first status's colour |
| Interface.StatusGroupInfo | daikanban/interface.py:624-640 | the two maps the loops build equal the status-to-column and column-to-colour specifications of the filtered columns |
| Interface.DefaultStatusGroupInfo | daikanban/interface.py:624-640 | with the default columns, paused tasks show in the active column and the three columns get their first status's colour |
| Interface.PausedOnlyStatusGroupInfo | daikanban/interface.py:624-640 | showing only paused tasks leaves one coloured column, active, coloured orange3 |
| Interface.Dispatch | daikanban/interface.py:690-736 | every rejection is 'Invalid input', and every accepted line selects an action |
| Interface.EvaluatePrompt | daikanban/interface.py:685-736 | a prompt does nothing iff it is blank |
| Interface.DispatchFirstToken | daikanban/interface.py:692-736 | a line is accepted only when its first token abbreviates board, help, project, quit or task, or is info or exit; a lone such token is always accepted |
| Interface.DispatchUnknownSubcommand | daikanban/interface.py:693-736 | under board, project or task, a sub-command matching none of that group's own words (board: help, delete, load, new, show, and schema from two letters; project: help, new, delete, show; task: help, delete, new, show) is invalid input |
| Interface.DispatchForeignSubcommand | daikanban/interface.py:711-736 | an abbreviation of another group's word is invalid input: 'project l' and 'task sc' |
| Interface.BoardSubcommandOrder | daikanban/interface.py:693-707 | board sub-commands are tried in the order delete, load, new, show, schema: 's' is show, 'sc' is schema, 'd' is delete |
| Interface.BoardLoadAndHelp | daikanban/interface.py:693-707 | load takes the third token as an optional path; a bare 'board' shows the board help; an unknown board sub-command is invalid input |
| Interface.ProjectSubcommands | daikanban/interface.py:710-721 | project show with or without a project, and delete without one |
| Interface.TaskSubcommands | daikanban/interface.py:724-735 | task delete takes the task from the third token; new creates a task |
| Interface.TopLevelAliases | daikanban/interface.py:708-723 | 'info' and 'exit' are whole-word aliases of help and quit; help ignores further tokens |
| Taskwarrior.SortedStrsSpec | daikanban/ext/taskwarrior.py:92 | `sorted` of a set of strings lists each element exactly once, in strictly ascending order |
| Taskwarrior.SortedOrNone | daikanban/ext/taskwarrior.py:92 | absent and empty sets give none; otherwise their sorted elements |
| Taskwarrior.SortedIdsMembers | daikanban/ext/taskwarrior.py:122 | `sorted` of the task ids lists exactly the ids, as many as there are |
| Taskwarrior.SortedIdsIncreasing | daikanban/ext/taskwarrior.py:122 | `sorted` of the task ids is strictly ascending |
| Taskwarrior.SortedIdsSpec | daikanban/ext/taskwarrior.py:122 | each task id exactly once, in strictly ascending order |
| Taskwarrior.ConvertTask | daikanban/ext/taskwarrior.py:75-117 | fails iff the task's project id is not on the board, with a key error naming that id; a converted record carries the task's id |
| Taskwarrior.ConvertTaskFields | daikanban/ext/taskwarrior.py:75-117 | a converted record keeps the name, notes (as annotations), project name, creation, due, start, completion and modified times; status is 'completed' exactly for complete tasks; tags sorted or none; depends, parent, imask, mask, recur, scheduled, until, uuid and wait are the dict lookups of those keys in `extra` (None when absent); the task's UDAs attached |
| Taskwarrior.ExtraGetIsGet | daikanban/ext/taskwarrior.py:94-103 | `extra.get(key)` is the dict lookup, None for a missing key |
| Taskwarrior.ExtraEntriesSpec | daikanban/ext/taskwarrior.py:114 | the extra entries kept are exactly those whose key is not excluded; distinct keys stay distinct |
| Taskwarrior.ExtraEntriesAppend | daikanban/ext/taskwarrior.py:114 | the extra entries kept stay in their order: the filter distributes over concatenation |
| Taskwarrior.UdasLayout | daikanban/ext/taskwarrior.py:106-115 | the six built-in UDAs come first; every later one is an extra entry whose key is neither a core field nor a built-in UDA; keys stay distinct |
| Taskwarrior.ExtraCannotOverridePriority | daikanban/ext/taskwarrior.py:106-115 | an extra 'priority' is dropped while an unknown extra key is appended |
| Taskwarrior.ConvertFromBoard | daikanban/ext/taskwarrior.py:119-125 | on success, one record per task, in strictly ascending id order, each equal to that task's conversion; on failure, the error of the least task id whose conversion fails |
| Taskwarrior.NewUdaEntries | daikanban/ext/taskwarrior.py:54-55 | exactly the UDA entries whose key is not yet present and whose value is not None |
| Taskwarrior.NewUdaEntriesAppend | daikanban/ext/taskwarrior.py:54-55 | the UDAs added keep their order: the filter distributes over concatenation |
| Taskwarrior.UpdateWithNewUdas | daikanban/ext/taskwarrior.py:54-55 | assigning the UDAs one by one leaves the dict followed by the UDAs new to it and not None, in UDA order |
| Taskwarrior.ToDict | daikanban/ext/taskwarrior.py:49-56 | the generic dict without 'udas', followed by the UDAs that are new and not None |
| Taskwarrior.ToDictKeepsBase | daikanban/ext/taskwarrior.py:49-56 | no entry of the generic dict is overridden or lost; every added entry is a non-None UDA |
| Dicts.Put | daikanban/ext/taskwarrior.py:55 | `d[k] = v` overwrites in place when `k` is present and appends otherwise, keeping keys distinct |
| Dicts.Remove | daikanban/ext/taskwarrior.py:52-53 | `del d[k]` keeps exactly the entries under other keys |
| Dicts.RemoveKeys | daikanban/ext/taskwarrior.py:52-53 | after `del d[k]` the keys are those of `d` other than `k` |
| Dicts.RemoveAbsent | daikanban/ext/taskwarrior.py:52-53 | removing an absent key changes nothing, so the `'udas' in d` guard only saves work |
| Dicts.RemoveAppend | daikanban/ext/taskwarrior.py:52-53 | `del d[k]` keeps the order of the other entries: it distributes over concatenation |
| Dicts.RemoveDistinct | daikanban/ext/taskwarrior.py:52-53 | `del d[k]` keeps distinct keys distinct |

## Left out

- Floating-point arithmetic. Times and durations are integer ticks, and day fractions are not
  modelled. Scores and bounds are `real`.
- Model.TotalTimeWorked: it has no contract of its own. It is defined as prior time plus the
  time since the last start, and `Model.PausedFreezesTotal`, `Model.RestartedResumesTotal` and
  `Model.LifecycleRun` state its behaviour.
- The scorer computations (`__call__` of the three scorers). They are float divisions and are
  not modelled. Their names, descriptions, units and default parameters are.
- The clock. `get_current_time` becomes the parameter `now`.
- Datetime parsing and formatting: `parse_date`, `human_readable_duration`, and the date
  formats of the model and the Taskwarrior encoder.
- Unicode. `strip`, `lower`, `upper`, `isdigit` and the regex class `\w` are modelled on ASCII
  only.
- pydantic's coercion, JSON schema and serialisation round trips. `AnyUrl` links are plain
  strings.
- Interface.EvaluatePrompt: shell tokenisation by `shlex.split`. The tokens are a parameter.
  A non-blank prompt is required to give at least one token, and an unbalanced quote is not
  modelled.
- The side effects of each dispatched command: prompts, rendering, file I/O and exiting. The
  dispatch returns the command it selects.
- The `show_board` table rendering and sorting by score.
- Interface.StatusGroupInfo: the columns are lists of `TaskStatus` values. Plain status strings
  from settings and the `getattr(..., 'color', None)` fallback for them are not modelled.
- The board settings object. The columns are a parameter.
- Taskwarrior.ConvertTask: it works on a record holding the task fields the exporter reads
  (notes, due time, modified time, the extra dict). The `Board` these come from is not part of
  this model, so its own behaviour (uuids, modified time) is not captured. Extra values are an
  untyped `Value`.
- The `TwTask` constructor's field validation.
- The generic `Model.to_dict` of the record. The dict it produces is the `base` parameter of
  `Taskwarrior.ToDict`, whose keys are assumed distinct, as a Python dict's are.
- `interface.py`'s own `style_str`/`err_style` (a different tag format, no capitalisation) are
  not modelled; `Utils.StyleStr`/`Utils.ErrStyle` model the `utils.py` ones.
- Python's exceptions as control flow. A raised error is a returned `Err`/`Fail` value, and the
  `catch_key_error` rewrapping is its error constructor.
